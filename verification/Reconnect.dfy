/** The client's connection attempts (src/client/session.rs, `client_reader`, `connect_once`, `drive`). */
module Reconnect {
  import opened Bytes
  import opened Streams
  import opened ClientOutput
  import opened Crypto
  import opened Records
  import Frames
  import H = Handshake
  import P = Protocol

  datatype Outcome = Ended | Detached | Disconnected

  datatype FatalReason = TerminalFailed | BadHello | UnexpectedFrame | OffsetTooLarge

  /** Why an attempt failed: only `Network` failures can be cured by trying again. */
  datatype Failure = Network | Rejected(reply: H.Reply) | Fatal(reason: FatalReason)

  /** The keyboard side stopped the connection after that many frames had been handled. */
  datatype Stop = Stop(after: nat, detached: bool)

  /** One attempt to connect: whether it got through, the cipher of the key both sides derive, the bytes that
      arrive before the connection breaks, the terminal size to report, and the keyboard side's stop. */
  datatype Attempt = Attempt(
    dialed: bool, nonce: H.Nonce, cipher: Cipher, arriving: seq<byte>, size: Option<(u16, u16)>, stop: Option<Stop>)

  /** What the client has shown for good. */
  datatype Committed = Committed(received: u64, log: seq<Item>) {
    function Accept(offset: u64, data: seq<byte>): Committed
      requires offset + |data| < U64_LIMIT
    {
      Committed(AcceptEnd(received, offset, data), log + AcceptItems(received, offset, data))
    }
  }

  datatype Verdict = Verdict(result: Result<Outcome, Failure>, committed: Committed)

  // Specifications

  predicate Stopped(stop: Option<Stop>) {
    stop.Some? && stop.value.after == 0
  }

  function OneLess(stop: Option<Stop>): Option<Stop>
    requires !Stopped(stop)
  {
    if stop.Some? then Some(Stop(stop.value.after - 1, stop.value.detached)) else None
  }

  /** What comes of the frames that arrive, until one is final, the stream breaks or the keyboard side stops. */
  function ReadOn(c: Committed, frames: seq<Frames.Frame>, stop: Option<Stop>): Verdict
    decreases |frames|
  {
    if Stopped(stop) then Verdict(Ok(if stop.value.detached then Detached else Disconnected), c)
    else if frames == [] then Verdict(Ok(Disconnected), c)
    else
      match frames[0]
      case Output(offset, data) =>
        if offset + |data| >= U64_LIMIT then Verdict(Err(Fatal(OffsetTooLarge)), c)
        else ReadOn(c.Accept(offset, data), frames[1..], OneLess(stop))
      case Ended => Verdict(Ok(Ended), c)
      case Ping => ReadOn(c, frames[1..], OneLess(stop))
      case Pong => ReadOn(c, frames[1..], OneLess(stop))
      case _ => Verdict(Err(Fatal(UnexpectedFrame)), c)
  }

  /** The bytes that follow the server's encrypted hello, or why the connection fails before. */
  function Open(id: H.Text, received: u64, attempt: Attempt): Result<seq<byte>, Failure> {
    if !attempt.dialed || |id| != H.SESSION_ID_LEN then Err(Network)
    else
      match H.ParseReply(attempt.arriving)
      case Err(_) => Err(Network)
      case Ok((reply, sealed)) =>
        if !reply.Welcome? then Err(Rejected(reply))
        else if received > reply.total then Err(Rejected(H.BadOffset))
        else
          match ReadRecord(attempt.cipher, DIR_SERVER_TO_CLIENT, 0, sealed)
          case Broken => Err(Network)
          case Got(first, rest) => if first == Frames.Hello then Ok(rest) else Err(Fatal(BadHello))
  }

  /** What comes of one attempt. */
  function Connect(id: H.Text, c: Committed, attempt: Attempt): Verdict {
    match Open(id, c.received, attempt)
    case Err(failure) => Verdict(Err(failure), c)
    case Ok(rest) => ReadOn(c, ReadAll(attempt.cipher, DIR_SERVER_TO_CLIENT, 1, rest).0, attempt.stop)
  }

  datatype End = Trying | Finished(result: Result<Outcome, Failure>)

  /** Where the client stands after some attempts. */
  datatype Progress = Progress(end: End, established: bool, committed: Committed)

  predicate Final(result: Result<Outcome, Failure>, established: bool) {
    match result
    case Ok(outcome) => outcome != Disconnected
    case Err(failure) => !established || !failure.Network?
  }

  function DriveOn(id: H.Text, attempts: seq<Attempt>): Progress {
    if attempts == [] then Progress(Trying, false, Committed(0, []))
    else
      var before := DriveOn(id, attempts[..|attempts| - 1]);
      if before.end.Finished? then before
      else
        var v := Connect(id, before.committed, attempts[|attempts| - 1]);
        Progress(
          if Final(v.result, before.established) then Finished(v.result) else Trying,
          before.established || v.result == Ok(Disconnected),
          v.committed)
  }

  // The methods

  ghost function Now(output: SessionOutput): Committed
    reads output
  {
    Committed(output.received, output.log)
  }

  /** Between two frames: nothing torn, no failure of the terminal so far. */
  ghost predicate Clean(output: SessionOutput)
    reads output, output.writer
  {
    output.Valid() && output.torn == [] && !output.writer.failed
  }

  /** Every frame a reader gets passes the decoder's bounds. */
  lemma ReadIsSendable(cipher: Cipher, dir: byte, counter: u64, bytes: seq<byte>)
    ensures var reading := ReadRecord(cipher, dir, counter, bytes);
      reading.Got? ==> Frames.Sendable(reading.frame)
  {
    var reading := ReadRecord(cipher, dir, counter, bytes);
    if reading.Got? {
      var len := FromBigEndian(bytes[..4]);
      Frames.EncodeDecode(cipher.Open(NonceFor(dir, counter), bytes[4..4 + len]).value);
    }
  }

  /** One frame more: what the reader makes of the stream is what it makes of the frame and of the rest. */
  lemma ReadOnNext(cipher: Cipher, dir: byte, counter: u64, bytes: seq<byte>, c: Committed, stop: Option<Stop>)
    requires !Stopped(stop)
    ensures var verdict := ReadOn(c, ReadAll(cipher, dir, counter, bytes).0, stop);
      match ReadRecord(cipher, dir, counter, bytes)
      case Broken => verdict == Verdict(Ok(Disconnected), c)
      case Got(frame, rest) =>
        && counter < U64_LIMIT - 1
        && var more := ReadAll(cipher, dir, counter + 1, rest).0;
        match frame
        case Output(offset, data) =>
          if offset + |data| >= U64_LIMIT then verdict == Verdict(Err(Fatal(OffsetTooLarge)), c)
          else verdict == ReadOn(c.Accept(offset, data), more, OneLess(stop))
        case Ended => verdict == Verdict(Ok(Ended), c)
        case Ping => verdict == ReadOn(c, more, OneLess(stop))
        case Pong => verdict == ReadOn(c, more, OneLess(stop))
        case _ => verdict == Verdict(Err(Fatal(UnexpectedFrame)), c)
  {
    var reading := ReadRecord(cipher, dir, counter, bytes);
    if reading.Got? {
      ReadAllGot(cipher, dir, counter, bytes, reading.frame, reading.rest);
      var more := ReadAll(cipher, dir, counter + 1, reading.rest).0;
      assert ([reading.frame] + more)[1..] == more;
    } else {
      ReadAllBroken(cipher, dir, counter, bytes);
    }
  }

  lemma StoppedReads(c: Committed, frames: seq<Frames.Frame>, stop: Option<Stop>)
    requires Stopped(stop)
    ensures ReadOn(c, frames, stop) == Verdict(Ok(if stop.value.detached then Detached else Disconnected), c)
  {
  }

  // A terminal that fails

  /** The reader takes the next frame after this one. */
  predicate Continues(f: Frames.Frame) {
    f.Ping? || f.Pong? || (f.Output? && f.offset + |f.data| < U64_LIMIT)
  }

  function After(c: Committed, f: Frames.Frame): Committed
    requires Continues(f)
  {
    if f.Output? then c.Accept(f.offset, f.data) else c
  }

  /** The terminal failed while it showed frame `n`: the first `n` frames are committed and no others, and the
      terminal holds beyond them at most a beginning of that frame's text. */
  ghost predicate TornAt(c: Committed, frames: seq<Frames.Frame>, stop: Option<Stop>, now: Committed, torn: seq<byte>,
                         notice: Wording, n: nat) {
    && n < |frames| && (stop.Some? ==> n < stop.value.after)
    && ReadOn(c, frames[..n], None) == Verdict(Ok(Disconnected), now)
    && frames[n].Output? && now.received < frames[n].offset + |frames[n].data|
    && torn <= FrameText(now.received, frames[n].offset, frames[n].data, notice)
  }

  ghost predicate Torn(c: Committed, frames: seq<Frames.Frame>, stop: Option<Stop>, now: Committed, torn: seq<byte>,
                       notice: Wording) {
    exists n: nat :: TornAt(c, frames, stop, now, torn, notice, n)
  }

  /** The same of the frames of one attempt. */
  ghost predicate TornConnect(id: H.Text, c: Committed, attempt: Attempt, now: Committed, torn: seq<byte>,
                              notice: Wording) {
    match Open(id, c.received, attempt)
    case Err(_) => false
    case Ok(rest) => Torn(c, ReadAll(attempt.cipher, DIR_SERVER_TO_CLIENT, 1, rest).0, attempt.stop, now, torn, notice)
  }

  /** One frame more is committed. */
  lemma {:induction false} ReadOnMore(c: Committed, frames: seq<Frames.Frame>, f: Frames.Frame, now: Committed)
    requires ReadOn(c, frames, None) == Verdict(Ok(Disconnected), now) && Continues(f)
    ensures ReadOn(c, frames + [f], None) == Verdict(Ok(Disconnected), After(now, f))
    decreases |frames|
  {
    if frames == [] {
      assert frames + [f] == [f] && [f][1..] == [];
    } else {
      assert (frames + [f])[0] == frames[0] && (frames + [f])[1..] == frames[1..] + [f];
      ReadOnMore(After(c, frames[0]), frames[1..], f, now);
    }
  }

  lemma NothingRead(c: Committed)
    ensures ReadOn(c, [], None) == Verdict(Ok(Disconnected), c)
  {
  }

  lemma TearsHere(c: Committed, done: seq<Frames.Frame>, f: Frames.Frame, more: seq<Frames.Frame>, stop: Option<Stop>,
                  now: Committed, torn: seq<byte>, notice: Wording)
    requires ReadOn(c, done, None) == Verdict(Ok(Disconnected), now) && (stop.Some? ==> |done| < stop.value.after)
    requires f.Output? && now.received < f.offset + |f.data|
    requires torn <= FrameText(now.received, f.offset, f.data, notice)
    ensures Torn(c, done + [f] + more, stop, now, torn, notice)
  {
    var frames := done + [f] + more;
    assert frames[..|done|] == done && frames[|done|] == f;
    assert TornAt(c, frames, stop, now, torn, notice, |done|);
  }

  /** Show one Output frame; a terminal that fails ends the session. */
  method Take(output: SessionOutput, offset: u64, data: seq<byte>) returns (r: Result<(), FatalReason>)
    requires Clean(output)
    modifies output, output.writer
    ensures output.Valid() && old(output.log) <= output.log
    ensures r == Err(OffsetTooLarge) <==> offset + |data| >= U64_LIMIT
    ensures r.Ok? ==> Clean(output) && Now(output) == old(Now(output)).Accept(offset, data)
    ensures r == Err(OffsetTooLarge) ==> Clean(output) && Now(output) == old(Now(output))
    ensures r.Err? && r != Err(OffsetTooLarge) ==>
      && r == Err(TerminalFailed) && output.writer.failed && Now(output) == old(Now(output))
      && output.received < offset + |data| && output.torn <= FrameText(output.received, offset, data, output.notice)
  {
    var accepted := output.Accept(offset, data);
    match accepted {
      case Ok(_) => r := Ok(());
      case Err(OffsetOverflow) => r := Err(OffsetTooLarge);
      case Err(OutputFailed) => r := Err(TerminalFailed);
    }
  }

  /** Frame after frame, until one is final, the stream breaks, the keyboard side stops or the terminal fails. */
  method ClientReader(r: Source, opener: Opener, output: SessionOutput, stop: Option<Stop>)
    returns (result: Result<Outcome, Failure>)
    requires Clean(output)
    modifies r, opener, output, output.writer
    ensures output.Valid() && old(output.log) <= output.log
    ensures output.writer.failed ==>
      && result == Err(Fatal(TerminalFailed))
      && Torn(old(Now(output)), ReadAll(opener.cipher, opener.dir, old(opener.counter), old(r.remaining)).0, stop,
           Now(output), output.torn, output.notice)
    ensures !output.writer.failed ==>
      && Clean(output)
      && Verdict(result, Now(output)) ==
           ReadOn(old(Now(output)), ReadAll(opener.cipher, opener.dir, old(opener.counter), old(r.remaining)).0, stop)
  {
    hide ReadOn, ReadAll, ReadRecord, Torn, FrameText;
    ghost var c, all := Now(output), ReadAll(opener.cipher, opener.dir, opener.counter, r.remaining).0;
    ghost var done: seq<Frames.Frame> := [];
    NothingRead(c);
    assert done + all == all;
    var left := stop;
    while true
      invariant Clean(output) && old(output.log) <= output.log
      invariant all == done + ReadAll(opener.cipher, opener.dir, opener.counter, r.remaining).0
      invariant ReadOn(c, done, None) == Verdict(Ok(Disconnected), Now(output))
      invariant left.Some? == stop.Some?
      invariant stop.Some? ==> |done| + left.value.after == stop.value.after
      invariant ReadOn(c, all, stop) ==
        ReadOn(Now(output), ReadAll(opener.cipher, opener.dir, opener.counter, r.remaining).0, left)
      decreases |r.remaining|
    {
      if Stopped(left) {
        StoppedReads(Now(output), ReadAll(opener.cipher, opener.dir, opener.counter, r.remaining).0, left);
        return Ok(if left.value.detached then Detached else Disconnected);
      }
      ReadOnNext(opener.cipher, opener.dir, opener.counter, r.remaining, Now(output), left);
      ReadAllFirst(opener.cipher, opener.dir, opener.counter, r.remaining);
      var frame := ReadFrame(r, opener);
      if frame.None? {
        return Ok(Disconnected);
      }
      left := OneLess(left);
      ghost var more := ReadAll(opener.cipher, opener.dir, opener.counter, r.remaining).0;
      Associative(done, [frame.value], more);
      if Continues(frame.value) {
        ReadOnMore(c, done, frame.value, Now(output));
      }
      match frame.value {
        case Output(offset, data) =>
          var taken := Take(output, offset, data);
          if taken.Err? {
            if taken.error == TerminalFailed {
              TearsHere(c, done, frame.value, more, stop, Now(output), output.torn, output.notice);
            }
            return Err(Fatal(taken.error));
          }
        case Ended => return Ok(Ended);
        case Ping =>
        case Pong =>
        case _ => return Err(Fatal(UnexpectedFrame));
      }
      done := done + [frame.value];
    }
  }

  /** The ciphers attempts use seal every record the protocol can carry. */
  ghost predicate Usable(cipher: Cipher) {
    cipher.Ideal() && cipher.limit >= MAX_RECORD
  }

  lemma SmallFramesFit(cipher: Cipher, cols: u16, rows: u16)
    requires Usable(cipher)
    ensures Fits(cipher, Frames.Hello) && Fits(cipher, Frames.Resize(cols, rows))
  {
    assert MAX_RECORD == 4194304;
  }

  /** The attempt as it went if our own writes are counted. */
  function AsWent(attempt: Attempt, failed: bool): Attempt {
    attempt.(dialed := attempt.dialed && !failed)
  }

  /** A hello or a terminal size always fits a record, so only the network can fail it. */
  method Send(w: Sink, sealer: Sealer, frame: Frames.Frame) returns (ok: bool)
    requires sealer.Valid() && Usable(sealer.cipher) && sealer.counter < 2 && (frame.Hello? || frame.Resize?)
    modifies w, sealer
    ensures sealer.Valid() && w.failed == (old(w.failed) || !ok)
    ensures ok ==> sealer.counter == old(sealer.counter) + 1 && old(w.written) <= w.written
  {
    if frame.Hello? {
      SmallFramesFit(sealer.cipher, 0, 0);
    } else {
      SmallFramesFit(sealer.cipher, frame.cols, frame.rows);
    }
    var r := WriteFrame(w, sealer, frame);
    ok := r.Ok?;
  }

  /** The plaintext handshake, the two encrypted hellos and the first terminal size. The hello asks for
      output from `received` on; a write that fails counts like a dial that failed. */
  method Hail(id: H.Text, received: u64, attempt: Attempt, w: Sink, r: Source) returns (result: Result<Opener, Failure>)
    requires Usable(attempt.cipher) && w.written == [] && !w.failed && r.remaining == attempt.arriving
    modifies w, r
    ensures match Open(id, received, AsWent(attempt, w.failed))
      case Err(failure) => result == Err(failure)
      case Ok(rest) =>
        && result.Ok? && fresh(result.value) && r.remaining == rest
        && result.value.cipher == attempt.cipher && result.value.dir == DIR_SERVER_TO_CLIENT
        && result.value.counter == 1
    ensures attempt.dialed && |id| == H.SESSION_ID_LEN && !w.failed ==>
      H.HelloBytes(H.ClientHello(id, attempt.nonce, received)) <= w.written
  {
    hide ReadRecord, H.ParseReply, H.HelloBytes, Fits, Usable;
    if !attempt.dialed {
      return Err(Network);
    }
    var sent := H.ClientSend(w, id, attempt.nonce, received);
    if sent.Err? {
      assert sent.error == H.BadIdLength || sent.error == H.SendFailed;
      return Err(Network);
    }
    var reply := H.ClientRecv(r);
    if reply.Err? {
      return Err(Network);
    }
    if !reply.value.Welcome? {
      return Err(Rejected(reply.value));
    }
    if received > reply.value.total {
      return Err(Rejected(H.BadOffset));
    }
    var sealer := new Sealer(attempt.cipher, DIR_CLIENT_TO_SERVER);
    var opener := new Opener(attempt.cipher, DIR_SERVER_TO_CLIENT);
    var wrote := Send(w, sealer, Frames.Hello);
    if !wrote {
      return Err(Network);
    }
    var first := ReadFrame(r, opener);
    if first.None? {
      return Err(Network);
    }
    if first.value != Frames.Hello {
      return Err(Fatal(BadHello));
    }
    if attempt.size.Some? {
      wrote := Send(w, sealer, Frames.Resize(attempt.size.value.0, attempt.size.value.1));
      if !wrote {
        return Err(Network);
      }
    }
    result := Ok(opener);
  }

  /** One attempt, asking for the output behind what is committed; a terminal that fails is fatal. */
  method ConnectOnce(id: H.Text, attempt: Attempt, output: SessionOutput, w: Sink, r: Source)
    returns (result: Result<Outcome, Failure>)
    requires Clean(output) && Usable(attempt.cipher)
    requires w != output.writer && w.written == [] && !w.failed && r.remaining == attempt.arriving
    modifies output, output.writer, w, r
    ensures output.Valid() && old(output.log) <= output.log
    ensures output.writer.failed ==>
      && result == Err(Fatal(TerminalFailed))
      && TornConnect(id, old(Now(output)), AsWent(attempt, w.failed), Now(output), output.torn, output.notice)
    ensures !output.writer.failed ==>
      Clean(output) && Verdict(result, Now(output)) == Connect(id, old(Now(output)), AsWent(attempt, w.failed))
    ensures attempt.dialed && |id| == H.SESSION_ID_LEN && !w.failed ==>
      H.HelloBytes(H.ClientHello(id, attempt.nonce, old(output.received))) <= w.written
  {
    hide ReadOn, ReadAll, Open, Torn, H.HelloBytes;
    var dialed := Hail(id, output.received, attempt, w, r);
    if dialed.Err? {
      return Err(dialed.error);
    }
    result := ClientReader(r, dialed.value, output, attempt.stop);
  }

  /** One attempt more. */
  lemma DriveNext(id: H.Text, tried: seq<Attempt>, attempt: Attempt)
    requires DriveOn(id, tried).end.Trying?
    ensures var before, after := DriveOn(id, tried), DriveOn(id, tried + [attempt]);
      var v := Connect(id, before.committed, attempt);
      && (after.end == if Final(v.result, before.established) then Finished(v.result) else Trying)
      && after.established == (before.established || v.result == Ok(Disconnected))
      && after.committed == v.committed
  {
    assert (tried + [attempt])[..|tried|] == tried;
  }

  /** Attempts as they went: a dial or a write of ours may have failed where it could have succeeded. */
  ghost predicate Went(attempts: seq<Attempt>, tried: seq<Attempt>) {
    && |tried| <= |attempts|
    && forall i :: 0 <= i < |tried| ==> tried[i] == AsWent(attempts[i], false) || tried[i] == AsWent(attempts[i], true)
  }

  lemma WentNext(attempts: seq<Attempt>, tried: seq<Attempt>, failed: bool)
    requires Went(attempts, tried) && |tried| < |attempts|
    ensures Went(attempts, tried + [AsWent(attempts[|tried|], failed)])
  {
  }

  /** Attempt after attempt until one is final: none follows a final one, nor a failure of the terminal.
      `tried` are the attempts made, as they went. The terminal shows the committed log and, if it failed, at
      most a beginning of the one frame of the last attempt that follows what is committed. */
  method Drive(id: H.Text, attempts: seq<Attempt>, output: SessionOutput) returns (end: End, tried: seq<Attempt>)
    requires Clean(output) && Now(output) == Committed(0, [])
    requires forall i :: 0 <= i < |attempts| ==> Usable(attempts[i].cipher)
    modifies output, output.writer
    ensures output.Valid() && output.writer.written == Render(output.log, output.notice) + output.torn
    ensures Went(attempts, tried) && (end.Trying? ==> |tried| == |attempts|)
    ensures output.writer.failed ==>
      && end == Finished(Err(Fatal(TerminalFailed))) && tried != []
      && TornConnect(id, DriveOn(id, tried[..|tried| - 1]).committed, tried[|tried| - 1],
           Now(output), output.torn, output.notice)
    ensures !output.writer.failed ==>
      Clean(output) && DriveOn(id, tried).end == end && DriveOn(id, tried).committed == Now(output)
    ensures end.Finished? ==> tried != [] && DriveOn(id, tried[..|tried| - 1]).end.Trying?
  {
    var establishedOnce := false;
    end, tried := Trying, [];
    assert DriveOn(id, tried) == Progress(Trying, establishedOnce, Now(output)) && Went(attempts, tried);
    hide Connect, DriveOn, Went, AsWent, Usable, TornConnect;
    for i := 0 to |attempts|
      invariant end.Trying? && |tried| == i && Clean(output) && Went(attempts, tried)
      invariant DriveOn(id, tried) == Progress(Trying, establishedOnce, Now(output))
    {
      var w := new Sink();
      var r := new Source(attempts[i].arriving);
      var result := ConnectOnce(id, attempts[i], output, w, r);
      var attempt := AsWent(attempts[i], w.failed);
      WentNext(attempts, tried, w.failed);
      DriveNext(id, tried, attempt);
      assert (tried + [attempt])[..i] == tried;
      tried := tried + [attempt];
      match result {
        case Ok(Disconnected) => establishedOnce := true;
        case Ok(_) =>
          end := Finished(result);
          return;
        case Err(failure) =>
          if !establishedOnce || !failure.Network? {
            end := Finished(result);
            return;
          }
      }
    }
  }

  // What the loop guarantees

  /** Once an attempt is final nothing that could follow changes anything. */
  lemma {:induction false} FinalForGood(id: H.Text, attempts: seq<Attempt>, more: seq<Attempt>)
    requires DriveOn(id, attempts).end.Finished?
    ensures DriveOn(id, attempts + more) == DriveOn(id, attempts)
    decreases |more|
  {
    if more == [] {
      assert attempts + more == attempts;
    } else {
      FinalForGood(id, attempts, more[..|more| - 1]);
      assert (attempts + more)[..|attempts + more| - 1] == attempts + more[..|more| - 1];
    }
  }

  /** A client still trying after its first attempt has been connected once. */
  lemma {:induction false} TryingIsEstablished(id: H.Text, attempts: seq<Attempt>)
    requires attempts != [] && DriveOn(id, attempts).end.Trying?
    ensures DriveOn(id, attempts).established
    ensures Connect(id, Committed(0, []), attempts[0]).result == Ok(Disconnected)
    decreases |attempts|
  {
    hide Connect;
    var front := attempts[..|attempts| - 1];
    if front == [] {
      assert DriveOn(id, front) == Progress(Trying, false, Committed(0, []));
    } else {
      TryingIsEstablished(id, front);
      assert front[0] == attempts[0];
    }
  }

  /** A network failure ends the session exactly when it is the very first attempt that suffers it: whoever
      was connected once keeps trying through any number of them. */
  lemma {:induction false} NetworkFailureExactly(id: H.Text, attempts: seq<Attempt>)
    ensures DriveOn(id, attempts).end == Finished(Err(Network)) <==>
      attempts != [] && Connect(id, Committed(0, []), attempts[0]).result == Err(Network)
    decreases |attempts|
  {
    hide Connect;
    if attempts != [] {
      var front := attempts[..|attempts| - 1];
      if front == [] {
        assert DriveOn(id, front) == Progress(Trying, false, Committed(0, []));
      } else {
        NetworkFailureExactly(id, front);
        assert front[0] == attempts[0];
        if DriveOn(id, front).end.Trying? {
          TryingIsEstablished(id, front);
        }
      }
    }
  }

  // The decoder protects the client

  lemma ShorterRest(cipher: Cipher, dir: byte, counter: u64, bytes: seq<byte>)
    requires ReadRecord(cipher, dir, counter, bytes).Got?
    ensures |ReadRecord(cipher, dir, counter, bytes).rest| < |bytes|
  {
  }

  lemma {:induction false} AllSendable(cipher: Cipher, dir: byte, counter: u64, bytes: seq<byte>)
    ensures forall i :: 0 <= i < |ReadAll(cipher, dir, counter, bytes).0| ==>
      Frames.Sendable(ReadAll(cipher, dir, counter, bytes).0[i])
    decreases |bytes|
  {
    hide ReadRecord, ReadAll, Frames.Sendable;
    var reading := ReadRecord(cipher, dir, counter, bytes);
    if reading.Got? {
      ReadIsSendable(cipher, dir, counter, bytes);
      ReadAllGot(cipher, dir, counter, bytes, reading.frame, reading.rest);
      ShorterRest(cipher, dir, counter, bytes);
      AllSendable(cipher, dir, counter + 1, reading.rest);
    } else {
      ReadAllBroken(cipher, dir, counter, bytes);
    }
  }

  lemma {:induction false} SendableNeverOverflows(c: Committed, frames: seq<Frames.Frame>, stop: Option<Stop>)
    requires forall i :: 0 <= i < |frames| ==> Frames.Sendable(frames[i])
    ensures ReadOn(c, frames, stop).result != Err(Fatal(OffsetTooLarge))
    decreases |frames|
  {
    if !Stopped(stop) && frames != [] {
      assert Frames.Sendable(frames[0]);
      var next := if frames[0].Output? then c.Accept(frames[0].offset, frames[0].data) else c;
      SendableNeverOverflows(next, frames[1..], OneLess(stop));
    }
  }

  /** Whatever bytes arrive, from whomever, the client's own overflow check never fires: a frame that would
      overflow the offset does not decode. */
  lemma NeverOverflows(id: H.Text, c: Committed, attempt: Attempt)
    ensures Connect(id, c, attempt).result != Err(Fatal(OffsetTooLarge))
  {
    hide ReadOn, ReadAll, ReadRecord, H.ParseReply, Frames.Sendable;
    var dialed := Open(id, c.received, attempt);
    if dialed.Ok? {
      AllSendable(attempt.cipher, DIR_SERVER_TO_CLIENT, 1, dialed.value);
      SendableNeverOverflows(c, ReadAll(attempt.cipher, DIR_SERVER_TO_CLIENT, 1, dialed.value).0, attempt.stop);
    }
  }

  // An honest server

  /** The frames a server writes behind its hello, carrying the history's own bytes. */
  ghost predicate FromHistory(frames: seq<Frames.Frame>, history: seq<byte>) {
    forall i :: 0 <= i < |frames| ==>
      match frames[i]
      case Output(offset, data) =>
        offset + |data| <= |history| && offset + |data| < U64_LIMIT && data == history[offset..offset + |data|]
      case Ping => true
      case Pong => true
      case Ended => true
      case _ => false
  }

  /** The log partitions what is committed and shows the history's bytes. */
  ghost predicate True(c: Committed, history: seq<byte>) {
    Spans(c.log, c.received) && Faithful(c.log, history)
  }

  lemma AcceptKeepsTrue(c: Committed, offset: u64, data: seq<byte>, history: seq<byte>)
    requires True(c, history) && offset + |data| <= |history| && offset + |data| < U64_LIMIT
    requires data == history[offset..offset + |data|]
    ensures True(c.Accept(offset, data), history)
  {
    AcceptSpans(c.log, c.received, offset, data);
    hide Spans;
    var items := AcceptItems(c.received, offset, data);
    forall i | 0 <= i < |items| && items[i].Shown?
      ensures items[i].End() <= |history| && items[i].data == history[items[i].from..items[i].End()]
    {
    }
  }

  /** Whatever part of such frames arrives, repeated or overlapping what was shown, the log stays true, and
      the client never takes them for a protocol error. */
  lemma {:induction false} ReadOnKeepsTrue(c: Committed, frames: seq<Frames.Frame>, stop: Option<Stop>,
                                           history: seq<byte>)
    requires True(c, history) && FromHistory(frames, history)
    ensures True(ReadOn(c, frames, stop).committed, history) && ReadOn(c, frames, stop).result.Ok?
    decreases |frames|
  {
    if !Stopped(stop) && frames != [] {
      var next := if frames[0].Output? then c.Accept(frames[0].offset, frames[0].data) else c;
      if frames[0].Output? {
        AcceptKeepsTrue(c, frames[0].offset, frames[0].data, history);
      }
      hide True;
      assert FromHistory(frames[1..], history);
      ReadOnKeepsTrue(next, frames[1..], OneLess(stop), history);
    }
  }

  /** What an honest server sends on a connection. */
  function ServerBytes(cipher: Cipher, nonce: H.Nonce, total: u64, frames: seq<Frames.Frame>): seq<byte>
    requires |frames| + 1 < U64_LIMIT
  {
    H.ReplyBytes(H.Welcome(nonce, total)) + Wire(cipher, DIR_SERVER_TO_CLIENT, 0, [Frames.Hello] + frames)
  }

  lemma Prefixes(reply: seq<byte>, part: seq<byte>, whole: seq<byte>, written: seq<byte>)
    requires part <= whole && written <= reply + part
    ensures written <= reply + whole
  {
  }

  /** The server's side of such a connection: the good reply, then under a fresh sealer its hello and the
      frames of the session. */
  method ServerSends(w: Sink, sealer: Sealer, nonce: H.Nonce, total: u64, frames: seq<Frames.Frame>) returns (ok: bool)
    requires sealer.Valid() && sealer.cipher.Ideal() && sealer.counter == 0 && sealer.dir == DIR_SERVER_TO_CLIENT
    requires |frames| + 1 < U64_LIMIT && Travels(sealer.cipher, [Frames.Hello] + frames) && w.written == [] && !w.failed
    modifies w, sealer
    ensures ok == !w.failed
    ensures ok ==>
      w.written == ServerBytes(sealer.cipher, nonce, total, frames) && sealer.counter == |frames| + 1
    ensures w.written <= ServerBytes(sealer.cipher, nonce, total, frames)
  {
    hide H.ReplyBytes, Wire, Fits, Frames.Sendable;
    var reply := H.Welcome(nonce, total);
    ok := H.ServerSend(w, reply);
    AfterNothing(H.ReplyBytes(reply));
    if !ok {
      return;
    }
    var all := [Frames.Hello] + frames;
    var done := WriteFrames(w, sealer, all);
    ok := done == |all|;
    if !ok {
      WireBegins(sealer.cipher, DIR_SERVER_TO_CLIENT, 0, all, done + 1);
      Prefixes(H.ReplyBytes(reply), Wire(sealer.cipher, DIR_SERVER_TO_CLIENT, 0, all[..done + 1]),
        Wire(sealer.cipher, DIR_SERVER_TO_CLIENT, 0, all), w.written);
    }
  }

  /** A reply that breaks off is no reply. */
  lemma TornReply(nonce: H.Nonce, total: u64, k: nat)
    requires k < |H.ReplyBytes(H.Welcome(nonce, total))|
    ensures H.ParseReply(H.ReplyBytes(H.Welcome(nonce, total))[..k]).Err?
  {
  }

  /** What follows a good reply: the first record must be the hello, the rest is read on from counter one. */
  lemma Follows(cipher: Cipher, bytes: seq<byte>, frames: seq<Frames.Frame>, end: u64)
    requires ReadAll(cipher, DIR_SERVER_TO_CLIENT, 0, bytes) == (frames, end)
    ensures var first := ReadRecord(cipher, DIR_SERVER_TO_CLIENT, 0, bytes);
      if frames == [] then first == Broken
      else
        && first.Got? && first.frame == frames[0]
        && ReadAll(cipher, DIR_SERVER_TO_CLIENT, 1, first.rest).0 == frames[1..]
  {
    var first := ReadRecord(cipher, DIR_SERVER_TO_CLIENT, 0, bytes);
    if first.Got? {
      ReadAllGot(cipher, DIR_SERVER_TO_CLIENT, 0, bytes, first.frame, first.rest);
      var more := ReadAll(cipher, DIR_SERVER_TO_CLIENT, 1, first.rest).0;
      assert ([first.frame] + more)[1..] == more;
    }
  }

  lemma BehindHello(frames: seq<Frames.Frame>, m: nat)
    requires m <= |frames| + 1
    ensures m > 0 ==> var all := [Frames.Hello] + frames;
      all[..m][0] == Frames.Hello && all[..m][1..] == frames[..m - 1]
  {
  }

  /** A sealed stream cut at `j` yields no hello at all, or the hello and the first `n` frames. */
  lemma CutSealed(cipher: Cipher, frames: seq<Frames.Frame>, j: nat) returns (n: nat)
    requires cipher.Ideal() && |frames| + 1 < U64_LIMIT && Travels(cipher, [Frames.Hello] + frames)
    requires j <= |Wire(cipher, DIR_SERVER_TO_CLIENT, 0, [Frames.Hello] + frames)|
    ensures var wire := Wire(cipher, DIR_SERVER_TO_CLIENT, 0, [Frames.Hello] + frames);
      var first := ReadRecord(cipher, DIR_SERVER_TO_CLIENT, 0, wire[..j]);
      && n <= |frames|
      && (first.Got? ==>
           first.frame == Frames.Hello && ReadAll(cipher, DIR_SERVER_TO_CLIENT, 1, first.rest).0 == frames[..n])
      && (j == |wire| ==> first.Got? && n == |frames|)
  {
    hide *;
    var all := [Frames.Hello] + frames;
    var wire := Wire(cipher, DIR_SERVER_TO_CLIENT, 0, all);
    var m := CutWire(cipher, DIR_SERVER_TO_CLIENT, 0, all, j);
    Follows(cipher, wire[..j], all[..m], m);
    if j == |wire| {
      RoundTrip(cipher, DIR_SERVER_TO_CLIENT, all);
      assert wire[..j] == wire;
    }
    n := if m > 0 then m - 1 else 0;
    BehindHello(frames, m);
  }

  /** `attempt` reached a server that wrote those frames, and the network delivered the first `k` bytes. */
  ghost predicate Served(attempt: Attempt, nonce: H.Nonce, total: u64, frames: seq<Frames.Frame>, k: nat) {
    && attempt.dialed && attempt.cipher.Ideal() && |frames| + 1 < U64_LIMIT
    && Travels(attempt.cipher, [Frames.Hello] + frames)
    && k <= |ServerBytes(attempt.cipher, nonce, total, frames)|
    && attempt.arriving == ServerBytes(attempt.cipher, nonce, total, frames)[..k]
  }

  /** What a client makes of a connection on which those frames arrive. */
  function Outcomes(c: Committed, total: u64, frames: seq<Frames.Frame>, stop: Option<Stop>): Verdict {
    if c.received > total then Verdict(Err(Rejected(H.BadOffset)), c) else ReadOn(c, frames, stop)
  }

  /** Cut anywhere, in the reply, in a record or between two, a connection fails as a whole or makes the
      client commit exactly the first `n` frames; uncut it delivers all of them. */
  lemma CutConnection(id: H.Text, c: Committed, attempt: Attempt, nonce: H.Nonce, total: u64,
                      frames: seq<Frames.Frame>, k: nat)
    returns (n: nat)
    requires Served(attempt, nonce, total, frames, k) && |id| == H.SESSION_ID_LEN
    ensures n <= |frames|
    ensures Connect(id, c, attempt) == Verdict(Err(Network), c)
         || Connect(id, c, attempt) == Outcomes(c, total, frames[..n], attempt.stop)
    ensures k == |ServerBytes(attempt.cipher, nonce, total, frames)| ==>
      Connect(id, c, attempt) == Outcomes(c, total, frames, attempt.stop)
  {
    hide ReadOn, ReadAll, ReadRecord, Wire, Travels, H.ParseReply, H.ReplyBytes;
    n := 0;
    var reply := H.ReplyBytes(H.Welcome(nonce, total));
    var wire := Wire(attempt.cipher, DIR_SERVER_TO_CLIENT, 0, [Frames.Hello] + frames);
    TakeHead(reply, wire, k);
    if k < |reply| {
      TornReply(nonce, total, k);
    } else {
      var j := k - |reply|;
      H.ReplyRoundTrip(H.Welcome(nonce, total), wire[..j]);
      n := CutSealed(attempt.cipher, frames, j);
      assert frames[..|frames|] == frames;
    }
  }

  ghost predicate Honest(attempt: Attempt, history: seq<byte>) {
    exists nonce: H.Nonce, total: u64, frames: seq<Frames.Frame>, k: nat ::
      Served(attempt, nonce, total, frames, k) && FromHistory(frames, history)
  }

  lemma FirstFrames(frames: seq<Frames.Frame>, n: nat, history: seq<byte>)
    requires n <= |frames| && FromHistory(frames, history)
    ensures FromHistory(frames[..n], history)
  {
  }

  lemma ConnectKeepsTrue(id: H.Text, c: Committed, attempt: Attempt, history: seq<byte>)
    requires |id| == H.SESSION_ID_LEN && True(c, history) && (attempt.dialed ==> Honest(attempt, history))
    ensures var v := Connect(id, c, attempt);
      True(v.committed, history) && (v.result.Err? ==> !v.result.error.Fatal?)
  {
    hide ReadOn, True, Served, FromHistory;
    if attempt.dialed {
      var nonce: H.Nonce, total: u64, frames: seq<Frames.Frame>, k: nat :|
        Served(attempt, nonce, total, frames, k) && FromHistory(frames, history);
      var n := CutConnection(id, c, attempt, nonce, total, frames, k);
      FirstFrames(frames, n, history);
      hide Connect;
      ReadOnKeepsTrue(c, frames[..n], attempt.stop, history);
    }
  }

  /** Across any number of connections to honest servers, each cut anywhere, with frames repeated, overlapping
      or skipping: the committed log partitions what is committed, every byte shown is the history's byte at
      its offset, and the client never gives up for a protocol error. */
  lemma {:induction false} DriveKeepsTrue(id: H.Text, attempts: seq<Attempt>, history: seq<byte>)
    requires |id| == H.SESSION_ID_LEN
    requires forall i :: 0 <= i < |attempts| && attempts[i].dialed ==> Honest(attempts[i], history)
    ensures var p := DriveOn(id, attempts);
      && True(p.committed, history)
      && (p.end.Finished? && p.end.result.Err? ==> !p.end.result.error.Fatal?)
    decreases |attempts|
  {
    hide Connect, Honest;
    if attempts != [] {
      var front, last := attempts[..|attempts| - 1], attempts[|attempts| - 1];
      DriveKeepsTrue(id, front, history);
      ConnectKeepsTrue(id, DriveOn(id, front).committed, last, history);
    }
  }

  // The transition system takes the same steps

  function CommittedOf(c: P.Client): Committed
    requires c.received < U64_LIMIT
  {
    Committed(c.received, c.log)
  }

  /** The client of the transition system, while its terminal works, commits frame by frame what the reader
      loop commits, and it leaves the stream exactly when and as the loop returns. */
  lemma DeliverReadsOn(c: P.Client, f: Frames.Frame, more: seq<Frames.Frame>)
    requires c.phase.Streaming? && c.received < U64_LIMIT && !f.Ended?
    ensures var c' := P.Deliver(c, P.Record(f), None);
      && c'.received < U64_LIMIT
      && ReadOn(CommittedOf(c), [f] + more, None) == (
           if c'.phase == c.phase then ReadOn(CommittedOf(c'), more, None)
           else Verdict(Err(Fatal(if f.Output? then OffsetTooLarge else UnexpectedFrame)), CommittedOf(c')))
      && (c'.phase != c.phase ==> c'.phase == P.Over(P.ProtocolError))
  {
    assert ([f] + more)[1..] == more;
    if f.Output? && f.offset + |f.data| <= c.received {
      assert c.log + [] == c.log;
    }
  }

  lemma DeliverEnds(c: P.Client, seen: nat, drained: bool, more: seq<Frames.Frame>)
    requires c.phase.Streaming? && c.received < U64_LIMIT
    ensures var c' := P.Deliver(c, P.Final(seen, drained), None);
      && c'.phase == P.Over(P.SessionEnded(seen, drained)) && c'.received < U64_LIMIT
      && ReadOn(CommittedOf(c), [Frames.Ended] + more, None) == Verdict(Ok(Ended), CommittedOf(c'))
  {
  }

  lemma SameTail(a: seq<byte>, b: seq<byte>, c: seq<byte>)
    requires a + b == a + c
    ensures b == c
  {
    assert b == (a + b)[|a|..] && c == (a + c)[|a|..];
  }

  /** The transition system's client tears its terminal exactly as a failed `Accept` may, and commits nothing. */
  lemma TearsAlike(c: P.Client, offset: u64, data: seq<byte>, torn: seq<byte>)
    requires c.received < offset + |data| < U64_LIMIT
    ensures torn <= FrameText(c.received, offset, data, c.notice) <==>
      exists k: nat :: P.Show(c, offset, data, Some(k)).terminal == c.terminal + torn
    ensures forall k: nat ::
      P.Show(c, offset, data, Some(k)).received == c.received && P.Show(c, offset, data, Some(k)).log == c.log
  {
    var text := FrameText(c.received, offset, data, c.notice);
    hide FrameText;
    if torn <= text {
      assert torn == text[..|torn|];
      assert P.Show(c, offset, data, Some(|torn|)).terminal == c.terminal + torn;
    }
    forall k: nat | P.Show(c, offset, data, Some(k)).terminal == c.terminal + torn
      ensures torn <= text
    {
      var shown := text[..Min(k, |text|)];
      SameTail(c.terminal, shown, torn);
    }
  }
}
