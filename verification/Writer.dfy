/** The server's writer loop (src/server/daemon.rs, `server_writer`) and the frames it drains. */
module Writer {
  import opened Bytes
  import opened Streams
  import opened ReplayRing
  import opened Frames
  import opened Protocol
  import opened Replay
  import opened Session

  /** What ends a parked writer's wait. */
  datatype Wait = Notified | PongDue | TickDue | PeerGone

  /** One turn of the loop: what happens before it looks, between its two looks, and to its wait. */
  datatype Turn = Turn(early: Act, late: Act, wait: Wait)

  datatype Exit = StillRunning | Superseded | WriteFailed | ReaderGone | ToldEnded

  // What the writer finds at its cursor

  /** The frame at the first retained offset not below the cursor, as long as the bound allows. */
  ghost predicate IsChunk(frame: Frame, history: seq<byte>, cap: nat, cursor: nat) {
    && frame.Output? && frame.offset == Max(cursor, Oldest(history, cap))
    && |frame.data| == Min(MAX_OUTPUT_BYTES, |history| - frame.offset)
    && frame.offset + |frame.data| <= |history|
    && frame.data == history[frame.offset..frame.offset + |frame.data|]
  }

  /** What a read yields: the next chunk while anything is unsent, nothing once caught up. */
  lemma Found(history: seq<byte>, cap: nat, cursor: nat)
    requires cursor <= |history| < U64_LIMIT
    ensures var (offset, data) := RingOf(history, cap).ReadFrom(cursor);
      && offset < U64_LIMIT
      && (data != [] || offset > cursor <==> cursor < |history|)
      && (cursor < |history| ==> IsChunk(Output(offset, data), history, cap, cursor))
  {
    AppendRefines(history, cap, []);
    ReadSlicesHistory(history, cap, cursor);
  }

  lemma ChunkFollows(frame: Frame, history: seq<byte>, cap: nat, cursor: nat)
    requires cursor < |history| && IsChunk(frame, history, cap, cursor)
    ensures Follows(frame, cursor, history, Oldest(history, cap))
  {
  }

  /** The writer reads at its cursor; an empty frame can still report a gap. */
  method Look(ring: RingBuf, cursor: nat) returns (found: Option<Frame>)
    requires ring.Valid() && cursor <= |ring.history| < U64_LIMIT
    ensures found.None? <==> cursor == |ring.history|
    ensures found.Some? ==> IsChunk(found.value, ring.history, ring.cap, cursor)
    ensures ring.start == Oldest(ring.history, ring.cap)
  {
    assert ring.Value() == RingOf(ring.history, ring.cap);
    Found(ring.history, ring.cap, cursor);
    var offset, data := ring.ReadFrom(cursor);
    found := if data != [] || offset > cursor then Some(Output(offset, data)) else None;
  }

  // What it owes while nothing is appended

  /** Chunk after chunk from the cursor to the end of the history. */
  ghost predicate Chunks(q: seq<Message>, history: seq<byte>, cap: nat, cursor: nat)
    decreases |q|
  {
    if q == [] then cursor == |history|
    else
      && cursor < |history| && q[0].Record? && IsChunk(q[0].frame, history, cap, cursor)
      && Chunks(q[1..], history, cap, q[0].frame.offset + |q[0].frame.data|)
  }

  /** At a cursor there is one next chunk. */
  lemma ChunkUnique(a: Frame, b: Frame, history: seq<byte>, cap: nat, cursor: nat)
    requires IsChunk(a, history, cap, cursor) && IsChunk(b, history, cap, cursor)
    ensures a == b
  {
  }

  /** The chunks a quiet session still owes. */
  ghost function Chunked(history: seq<byte>, cap: nat, cursor: nat): (q: seq<Message>)
    requires cursor <= |history| < U64_LIMIT
    ensures Chunks(q, history, cap, cursor)
    decreases |history| - cursor
  {
    if cursor == |history| then []
    else
      var offset := Max(cursor, Oldest(history, cap));
      var next := offset + Min(MAX_OUTPUT_BYTES, |history| - offset);
      [Record(Output(offset, history[offset..next]))] + Chunked(history, cap, next)
  }

  /** After `i` turns in which nothing but the writer acts: it has sent the first `i` of the chunks it owes, or
      all of them first of all. */
  ghost predicate Drains(sent: seq<Message>, owed: seq<Message>, history: seq<byte>, cap: nat, cursor: nat, i: nat) {
    if i < |owed| then sent == owed[..i] && Chunks(owed[i..], history, cap, cursor)
    else owed <= sent && cursor == |history|
  }

  lemma DrainStart(history: seq<byte>, cap: nat, cursor: nat)
    requires cursor <= |history| < U64_LIMIT
    ensures Drains([], Chunked(history, cap, cursor), history, cap, cursor, 0)
  {
    var owed := Chunked(history, cap, cursor);
    assert owed[0..] == owed;
  }

  lemma DrainStands(sent: seq<Message>, owed: seq<Message>, history: seq<byte>, cap: nat, cursor: nat, i: nat)
    requires Drains(sent, owed, history, cap, cursor, i)
    ensures if i < |owed| then sent <= owed else owed <= sent
  {
  }

  /** Below the total the next chunk goes out. */
  lemma DrainNext(sent: seq<Message>, owed: seq<Message>, history: seq<byte>, cap: nat, cursor: nat, i: nat,
                  frame: Frame)
    requires Drains(sent, owed, history, cap, cursor, i) && cursor < |history| && IsChunk(frame, history, cap, cursor)
    ensures sent <= owed
    ensures Drains(sent + [Record(frame)], owed, history, cap, frame.offset + |frame.data|, i + 1)
  {
    ChunkUnique(frame, owed[i..][0].frame, history, cap, cursor);
    assert owed[i..][0] == owed[i] && owed[i..][1..] == owed[i + 1..];
    assert owed[..i + 1] == owed[..i] + [owed[i]];
    if i + 1 == |owed| {
      assert owed[..i + 1] == owed && owed[i + 1..] == [];
      assert Chunks([], history, cap, frame.offset + |frame.data|);
    }
  }

  lemma DrainMore(sent: seq<Message>, owed: seq<Message>, history: seq<byte>, cap: nat, cursor: nat, i: nat,
                  frame: Frame)
    requires Drains(sent, owed, history, cap, cursor, i) && cursor < |history| && IsChunk(frame, history, cap, cursor)
    ensures sent + [Record(frame)] <= owed
  {
    DrainNext(sent, owed, history, cap, cursor, i, frame);
    assert i < |owed|;
  }

  /** Caught up, every chunk has gone out, and what else is sent comes after them. */
  lemma DrainRests(sent: seq<Message>, owed: seq<Message>, history: seq<byte>, cap: nat, cursor: nat, i: nat,
                   more: seq<Message>)
    requires Drains(sent, owed, history, cap, cursor, i) && cursor == |history|
    ensures owed <= sent + more && Drains(sent + more, owed, history, cap, cursor, i + 1)
  {
    if i < |owed| {
      assert false;
    }
  }

  // The loop

  /** What holds of the frames sent however the writer stands. */
  ghost predicate SentOk(sent: seq<Message>, from: nat, cursor: nat, history: seq<byte>, start: nat, exit: Exit) {
    && cursor <= |history| && Flow(sent, from, history, start)
    && (exit != WriteFailed ==> FlowEnd(sent, from) == cursor)
    && (exit != ToldEnded ==> NoFinal(sent))
  }

  lemma SentStart(from: nat, history: seq<byte>, start: nat)
    requires from <= |history|
    ensures SentOk([], from, from, history, start, StillRunning)
  {
  }

  lemma SentBound(sent: seq<Message>, from: nat, cursor: nat, history: seq<byte>, start: nat)
    requires SentOk(sent, from, cursor, history, start, StillRunning)
    ensures cursor <= |history| && SentOk(sent, from, cursor, history, start, Superseded)
  {
  }

  lemma SentGrows(sent: seq<Message>, from: nat, cursor: nat, history: seq<byte>, start: nat, history': seq<byte>,
                  start': nat)
    requires SentOk(sent, from, cursor, history, start, StillRunning) && history <= history' && start <= start'
    ensures SentOk(sent, from, cursor, history', start', StillRunning)
  {
    assert history' == history + history'[|history|..];
    FlowGrows(sent, from, history, start, history'[|history|..], start');
  }

  lemma SentMore(sent: seq<Message>, from: nat, cursor: nat, history: seq<byte>, start: nat, m: Message)
    requires SentOk(sent, from, cursor, history, start, StillRunning) && Flow([m], cursor, history, start)
    ensures SentOk(sent + [m], from, EndAfter(m, cursor), history, start, if m.Final? then ToldEnded else StillRunning)
    ensures SentOk(sent, from, EndAfter(m, cursor), history, start, WriteFailed)
  {
    FlowExtends(sent, from, history, start, m);
  }

  /** Nobody else does anything. */
  predicate Idle(act: Act) {
    act.bytes == [] && !act.newcomer && !act.ends
  }

  predicate Quiet(turns: seq<Turn>) {
    forall i :: 0 <= i < |turns| ==> Idle(turns[i].early) && Idle(turns[i].late)
  }

  /** Other threads act between two steps of the writer; its chain stays a chain. */
  method Interfere(session: SessionShared, socket: FrameSink<Message>, act: Act, ghost from: nat, ghost cursor: nat)
    requires session.Valid()
    requires SentOk(socket.sent, from, cursor, session.ring.history, session.ring.start, StillRunning)
    modifies session, session.ring
    ensures session.Valid() && old(session.ring.history) <= session.ring.history
    ensures SentOk(socket.sent, from, cursor, session.ring.history, session.ring.start, StillRunning)
    ensures Idle(act) ==>
      session.ring.history == old(session.ring.history) && session.activeEpoch == old(session.activeEpoch)
  {
    ghost var history, start := session.ring.history, session.ring.start;
    session.Interfere(act);
    SentGrows(socket.sent, from, cursor, history, start, session.ring.history, session.ring.start);
  }

  /** The chunk goes out and the cursor moves to its end, whether or not the write succeeds. */
  method Emit(socket: FrameSink<Message>, frame: Frame, cursor: nat, ghost from: nat, ghost history: seq<byte>,
              ghost cap: nat)
    returns (cursor': nat, exit: Exit)
    requires cursor < |history| && IsChunk(frame, history, cap, cursor)
    requires SentOk(socket.sent, from, cursor, history, Oldest(history, cap), StillRunning)
    modifies socket
    ensures exit == StillRunning || (exit == WriteFailed && socket.failed)
    ensures cursor < cursor' == frame.offset + |frame.data|
    ensures SentOk(socket.sent, from, cursor', history, Oldest(history, cap), exit)
    ensures socket.sent == if exit == StillRunning then old(socket.sent) + [Record(frame)] else old(socket.sent)
  {
    ChunkFollows(frame, history, cap, cursor);
    SentMore(socket.sent, from, cursor, history, Oldest(history, cap), Record(frame));
    cursor' := frame.offset + |frame.data|;
    var ok := socket.Put(Record(frame));
    exit := if ok then StillRunning else WriteFailed;
  }

  /** Caught up: say the session ended, or wait for a notification, a pong to send or the tick. */
  method Rest(socket: FrameSink<Message>, ended: bool, wait: Wait, cursor: nat,
              ghost from: nat, ghost history: seq<byte>, ghost start: nat) returns (exit: Exit)
    requires SentOk(socket.sent, from, cursor, history, start, StillRunning)
    modifies socket
    ensures exit != Superseded && (exit == ToldEnded <==> ended)
    ensures SentOk(socket.sent, from, cursor, history, start, exit)
    ensures old(socket.sent) <= socket.sent && (exit == WriteFailed ==> socket.failed)
    ensures exit == ReaderGone <==> !ended && wait == PeerGone
    ensures exit == ToldEnded && !socket.failed ==> socket.sent == old(socket.sent) + [Final(cursor, false)]
    ensures exit == StillRunning ==> |socket.sent| == |old(socket.sent)| + (if wait != Notified then 1 else 0)
  {
    var m := if ended then Final(cursor, false) else Record(if wait.PongDue? then Pong else Ping);
    SentMore(socket.sent, from, cursor, history, start, m);
    if ended {
      var _ := socket.Put(m);
      return ToldEnded;
    }
    if wait == PeerGone {
      return ReaderGone;
    }
    exit := StillRunning;
    if wait != Notified {
      var ok := socket.Put(m);
      exit := if ok then StillRunning else WriteFailed;
    }
  }

  /** The rest of a turn that found nothing to send. */
  method Pause(session: SessionShared, socket: FrameSink<Message>, turn: Turn, cursor: nat,
               ghost from: nat, ghost owed: seq<Message>, ghost i: nat) returns (exit: Exit)
    requires session.Valid() && cursor == |session.ring.history|
    requires SentOk(socket.sent, from, cursor, session.ring.history, session.ring.start, StillRunning)
    modifies session, session.ring, socket
    ensures session.Valid() && old(session.ring.history) <= session.ring.history
    ensures SentOk(socket.sent, from, cursor, session.ring.history, session.ring.start, exit)
    ensures exit != Superseded && (exit == ToldEnded ==> session.ended)
    ensures exit == ToldEnded && !socket.failed ==> socket.sent == old(socket.sent) + [Final(cursor, false)]
    ensures exit == WriteFailed ==> socket.failed
    ensures exit == ReaderGone ==> turn.wait == PeerGone
    ensures exit == StillRunning ==> |socket.sent| >= |old(socket.sent)| + (if turn.wait != Notified then 1 else 0)
    ensures Idle(turn.late) ==>
      session.ring.history == old(session.ring.history) && session.activeEpoch == old(session.activeEpoch)
    ensures (
        && Idle(turn.late)
        && Drains(old(socket.sent), owed, old(session.ring.history), session.ring.cap, cursor, i)) ==>
      owed <= socket.sent && Drains(socket.sent, owed, session.ring.history, session.ring.cap, cursor, i + 1)
  {
    hide SentOk, IsChunk, Oldest, Drains;
    ghost var drains := Idle(turn.late) && Drains(socket.sent, owed, session.ring.history, session.ring.cap, cursor, i);
    Interfere(session, socket, turn.late, from, cursor);
    ghost var sent := socket.sent;
    exit := Rest(socket, session.ended, turn.wait, cursor, from, session.ring.history, session.ring.start);
    if drains {
      assert sent + socket.sent[|sent|..] == socket.sent;
      DrainRests(sent, owed, session.ring.history, session.ring.cap, cursor, i, socket.sent[|sent|..]);
    }
  }

  /** One turn of the loop. In a quiet session it sends the next chunk of `owed`, or goes on behind them. */
  method TakeTurn(session: SessionShared, socket: FrameSink<Message>, epoch: nat, turn: Turn, cursor: nat,
                  ghost from: nat, ghost owed: seq<Message>, ghost i: nat) returns (cursor': nat, exit: Exit)
    requires session.Valid()
    requires SentOk(socket.sent, from, cursor, session.ring.history, session.ring.start, StillRunning)
    modifies session, session.ring, socket
    ensures session.Valid() && old(session.ring.history) <= session.ring.history
    ensures SentOk(socket.sent, from, cursor', session.ring.history, session.ring.start, exit)
    ensures exit == ToldEnded ==> session.ended
    ensures exit == ToldEnded && !socket.failed ==> socket.sent == old(socket.sent) + [Final(cursor', false)]
    ensures exit == Superseded ==> session.activeEpoch != epoch
    ensures exit == WriteFailed ==> socket.failed
    ensures exit == ReaderGone ==> turn.wait == PeerGone
    ensures exit == ToldEnded || exit == ReaderGone ==> cursor' >= |old(session.ring.history)|
    ensures exit == StillRunning ==>
      && |socket.sent| >= |old(socket.sent)| + (if turn.wait != Notified then 1 else 0)
      && cursor <= cursor' && (cursor < cursor' || cursor' >= |old(session.ring.history)|)
    ensures (
        && Idle(turn.early) && Idle(turn.late) && old(session.activeEpoch) == epoch
        && Drains(old(socket.sent), owed, old(session.ring.history), session.ring.cap, cursor, i)) ==>
      && session.ring.history == old(session.ring.history) && session.activeEpoch == epoch && exit != Superseded
      && (socket.sent <= owed || owed <= socket.sent)
      && (exit == ToldEnded || exit == ReaderGone ==> owed <= socket.sent)
      && (exit == StillRunning ==> Drains(socket.sent, owed, session.ring.history, session.ring.cap, cursor', i + 1))
  {
    hide SentOk, IsChunk, Oldest, Drains;
    ghost var quiet := Drains(socket.sent, owed, session.ring.history, session.ring.cap, cursor, i)
      && Idle(turn.early) && Idle(turn.late) && session.activeEpoch == epoch;
    cursor' := cursor;
    Interfere(session, socket, turn.early, from, cursor);
    SentBound(socket.sent, from, cursor, session.ring.history, session.ring.start);
    var current := session.IsCurrent(epoch);
    if !current {
      return cursor, Superseded;
    }
    var found := Look(session.ring, cursor);
    if found.Some? {
      if quiet {
        DrainNext(socket.sent, owed, session.ring.history, session.ring.cap, cursor, i, found.value);
        DrainMore(socket.sent, owed, session.ring.history, session.ring.cap, cursor, i, found.value);
      }
      cursor', exit := Emit(socket, found.value, cursor, from, session.ring.history, session.ring.cap);
      return;
    }
    exit := Pause(session, socket, turn, cursor, from, owed, i);
  }

  /** The first `n` turns in which a wait would end with a frame. */
  function Beats(turns: seq<Turn>, n: nat): nat
    requires n <= |turns|
  {
    if n == 0 then 0 else Beats(turns, n - 1) + (if turns[n - 1].wait != Notified then 1 else 0)
  }

  /** Whatever else happens to the session meanwhile, the frames written chain from where the writer
      started to its cursor; every turn moves the cursor until the output is sent; and Ended is written last,
      when the session has ended and everything it held at the start has been sent or reported missing. If nobody
      else acts, what it sends begins with exactly the chunks it owes. */
  method ServerWriter(session: SessionShared, socket: FrameSink<Message>, startOffset: nat, epoch: nat,
                      turns: seq<Turn>)
    returns (cursor: nat, exit: Exit)
    requires session.Valid() && socket.sent == [] && startOffset <= |session.ring.history|
    modifies session, session.ring, socket
    ensures session.Valid() && old(session.ring.history) <= session.ring.history
    ensures SentOk(socket.sent, startOffset, cursor, session.ring.history, session.ring.start, exit)
    ensures exit == ToldEnded ==> session.ended
    ensures exit == ToldEnded && !socket.failed ==>
      socket.sent != [] && socket.sent[|socket.sent| - 1] == Final(cursor, false)
    ensures exit == Superseded ==> session.activeEpoch != epoch
    ensures exit == WriteFailed ==> socket.failed
    ensures exit == ReaderGone ==> exists i :: 0 <= i < |turns| && turns[i].wait == PeerGone
    ensures exit == ToldEnded || exit == ReaderGone ==> cursor >= |old(session.ring.history)|
    ensures exit == StillRunning ==>
      && |socket.sent| >= Beats(turns, |turns|)
      && (cursor >= |old(session.ring.history)| || cursor >= startOffset + |turns|)
    ensures Quiet(turns) && old(session.activeEpoch) == epoch ==>
      var owed := Chunked(old(session.ring.history), session.ring.cap, startOffset);
      && exit != Superseded && (socket.sent <= owed || owed <= socket.sent)
      && (exit == ToldEnded || exit == ReaderGone || (exit == StillRunning && |turns| >= |owed|) ==>
           owed <= socket.sent)
  {
    hide SentOk, Oldest, Drains, Chunked;
    ghost var quiet, history := Quiet(turns) && session.activeEpoch == epoch, session.ring.history;
    ghost var owed := Chunked(history, session.ring.cap, startOffset);
    SentStart(startOffset, history, session.ring.start);
    DrainStart(history, session.ring.cap, startOffset);
    cursor, exit := startOffset, StillRunning;
    for i := 0 to |turns|
      invariant exit == StillRunning && session.Valid() && history <= session.ring.history
      invariant SentOk(socket.sent, startOffset, cursor, session.ring.history, session.ring.start, exit)
      invariant |socket.sent| >= Beats(turns, i)
      invariant cursor >= |history| || cursor >= startOffset + i
      invariant quiet ==> session.activeEpoch == epoch && session.ring.history == history
      invariant quiet ==> Drains(socket.sent, owed, history, session.ring.cap, cursor, i)
    {
      cursor, exit := TakeTurn(session, socket, epoch, turns[i], cursor, startOffset, owed, i);
      if exit != StillRunning {
        return;
      }
    }
    if quiet {
      DrainStands(socket.sent, owed, history, session.ring.cap, cursor, |turns|);
    }
  }

  /** The frames needed for `n` bytes. */
  function FrameCount(n: nat): nat {
    (n + MAX_OUTPUT_BYTES - 1) / MAX_OUTPUT_BYTES
  }

  lemma FrameCountStep(n: nat)
    ensures n > MAX_OUTPUT_BYTES ==> FrameCount(n) == FrameCount(n - MAX_OUTPUT_BYTES) + 1
    ensures 0 < n <= MAX_OUTPUT_BYTES ==> FrameCount(n) == 1
  {
    assert MAX_OUTPUT_BYTES == 65536;
  }

  lemma SlicesJoin(history: seq<byte>, a: nat, b: nat)
    requires a <= b <= |history|
    ensures history[a..b] + history[b..] == history[a..]
  {
  }

  /** The bytes a list of frames carries. */
  function Payload(q: seq<Message>): seq<byte> {
    if q == [] then [] else (if q[0].Record? && q[0].frame.Output? then q[0].frame.data else []) + Payload(q[1..])
  }

  /** Drain bound: the chunks are exactly as many as the unsent retained bytes need, one empty frame if
      everything unsent was evicted, none if the cursor has caught up; they carry exactly those bytes. */
  lemma {:induction false} DrainBound(q: seq<Message>, history: seq<byte>, cap: nat, cursor: nat)
    requires Chunks(q, history, cap, cursor) && cursor <= |history|
    ensures var from := Max(cursor, Oldest(history, cap));
      && |q| == (if from < |history| then FrameCount(|history| - from) else if cursor < from then 1 else 0)
      && Payload(q) == history[from..]
    decreases |q|
  {
    if q != [] {
      var offset, next := q[0].frame.offset, q[0].frame.offset + |q[0].frame.data|;
      DrainBound(q[1..], history, cap, next);
      FrameCountStep(|history| - offset);
      SlicesJoin(history, offset, next);
    }
  }
}
