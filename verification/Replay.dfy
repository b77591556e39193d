/** Exact resume: what the client has shown and reported is always the true history. */
module Replay {
  import opened Bytes
  import opened ReplayRing
  import opened Frames
  import opened ClientOutput
  import opened Protocol

  /** An Output frame that carries the history's own bytes, within the frame bound. */
  ghost predicate TrueFrame(f: Frame, history: seq<byte>) {
    f.Output? && |f.data| <= MAX_OUTPUT_BYTES && f.offset + |f.data| <= |history|
    && f.data == history[f.offset..f.offset + |f.data|]
  }

  /** `f` can follow position `pos`: it does not repeat, it makes progress, and what it skips is evicted. */
  ghost predicate Follows(f: Frame, pos: nat, history: seq<byte>, start: nat) {
    TrueFrame(f, history) && pos <= f.offset && pos < f.offset + |f.data| && (pos < f.offset ==> f.offset <= start)
  }

  /** The frames in flight form a chain from `pos`; Ended comes last, at the total its writer saw. */
  ghost predicate Flow(q: seq<Message>, pos: nat, history: seq<byte>, start: nat) {
    q == [] ||
    match q[0]
    case Record(f) =>
      if f.Output? then Follows(f, pos, history, start) && Flow(q[1..], f.offset + |f.data|, history, start)
      else (f.Ping? || f.Pong?) && Flow(q[1..], pos, history, start)
    case Final(seen, _) => |q| == 1 && seen == pos
    case _ => false
  }

  /** The position a chain from `pos` ends at. */
  ghost function FlowEnd(q: seq<Message>, pos: nat): nat {
    if q == [] then pos
    else if q[0].Record? && q[0].frame.Output? then FlowEnd(q[1..], q[0].frame.offset + |q[0].frame.data|)
    else FlowEnd(q[1..], pos)
  }

  ghost predicate NoFinal(q: seq<Message>) {
    forall i :: 0 <= i < |q| ==> !q[i].Final?
  }

  lemma {:induction false} FlowGrows(q: seq<Message>, pos: nat, history: seq<byte>, start: nat, more: seq<byte>,
                                     start': nat)
    requires Flow(q, pos, history, start) && start <= start'
    ensures Flow(q, pos, history + more, start')
  {
    if q != [] && q[0].Record? {
      if q[0].frame.Output? {
        FlowGrows(q[1..], q[0].frame.offset + |q[0].frame.data|, history, start, more, start');
      } else {
        FlowGrows(q[1..], pos, history, start, more, start');
      }
    }
  }

  lemma {:induction false} FlowExtends(q: seq<Message>, pos: nat, history: seq<byte>, start: nat, m: Message)
    requires Flow(q, pos, history, start) && NoFinal(q)
    requires Flow([m], FlowEnd(q, pos), history, start)
    ensures Flow(q + [m], pos, history, start)
    ensures FlowEnd(q + [m], pos) == FlowEnd([m], FlowEnd(q, pos))
  {
    if q == [] {
      assert q + [m] == [m];
    } else {
      assert (q + [m])[1..] == q[1..] + [m];
      var pos' := if q[0].frame.Output? then q[0].frame.offset + |q[0].frame.data| else pos;
      FlowExtends(q[1..], pos', history, start, m);
    }
  }

  lemma {:induction false} FlowCut(q: seq<Message>, pos: nat, history: seq<byte>, start: nat, keep: nat)
    requires Flow(q, pos, history, start) && keep <= |q|
    ensures Flow(q[..keep], pos, history, start)
  {
    if keep > 0 && q[0].Record? {
      assert q[..keep][1..] == q[1..][..keep - 1];
      var pos' := if q[0].frame.Output? then q[0].frame.offset + |q[0].frame.data| else pos;
      FlowCut(q[1..], pos', history, start, keep - 1);
    }
  }

  // The invariant

  predicate Handshaking(pc: Pc) {
    pc == Hailed || pc == Found || pc == Replied || pc == Authed || pc == Entering
  }

  /** The server may still write to the connection's encrypted stream. */
  predicate Writing(pc: Pc) {
    pc == Authed || pc == Entering || pc == Top || pc == Current || pc == Registered || pc.Emitting?
    || pc == Checking || pc == Finishing || pc == Parked
  }

  ghost predicate ConnOk(c: Conn, history: seq<byte>, start: nat) {
    && (Handshaking(c.pc) ==> c.offset == c.cursor == c.sent)
    && (c.pc == Replied || Writing(c.pc) ==> c.cursor <= |history|)
    && (Writing(c.pc) && !c.pc.Emitting? ==> c.sent == c.cursor)
    && (c.pc == Checking || c.pc == Finishing ==> c.seen == c.cursor)
    && (c.pc.Emitting? ==>
        Follows(c.pc.frame, c.sent, history, start) && c.cursor == c.pc.frame.offset + |c.pc.frame.data|)
  }

  /** The encrypted stream of an established connection, ahead of the client at `received`. */
  ghost predicate StreamOk(c: Conn, q: seq<Message>, received: nat, history: seq<byte>, start: nat) {
    && Flow(q, received, history, start)
    && (Writing(c.pc) ==> NoFinal(q) && (!c.cut ==> FlowEnd(q, received) == c.sent))
  }

  ghost predicate ReplyOkFor(q: seq<Message>, received: nat) {
    q == [] || (|q| == 1 && (q[0] == ReplyNoSession || (q[0].ReplyOk? && received <= q[0].total)))
  }

  /** The client's live connection, by how far its handshake has come. */
  ghost predicate LinkOk(phase: Phase, c: Conn, received: nat, history: seq<byte>, start: nat)
    requires Linked(phase)
  {
    match phase
    case AwaitReply(_) =>
      && !c.helloed && c.offset == received && ReplyOkFor(c.queue, received)
      && (c.pc == Hailed || c.pc == Found ==> c.queue == [])
      && (c.pc == Hailed || c.pc == Found || c.pc == Replied || c.pc == Gone)
    case AwaitHello(_) =>
      && c.helloed && c.offset == received && c.pc != Hailed && c.pc != Found
      && (c.pc == Replied ==> c.queue == [])
      && (c.queue != [] ==> c.queue[0] == Record(Hello) && StreamOk(c, c.queue[1..], received, history, start))
      && (Writing(c.pc) && !c.cut ==> c.queue != [])
    case Streaming(_) =>
      && c.pc != Hailed && c.pc != Found && c.pc != Replied
      && StreamOk(c, c.queue, received, history, start)
  }

  /** A log is a true partition of `[0, end)`. */
  ghost predicate TrueLog(log: seq<Item>, end: nat, history: seq<byte>, start: nat) {
    end <= |history| && Spans(log, end) && Faithful(log, history) && Honest(log, start)
  }

  /** A frame that could not be shown left a beginning of its text, beyond the committed log. */
  ghost predicate TornOk(c: Client, f: Frame, history: seq<byte>, start: nat) {
    && Follows(f, c.received, history, start)
    && Render(c.log, c.notice) <= c.terminal
    && c.terminal <= Render(c.log, c.notice) + FrameText(c.received, f.offset, f.data, c.notice)
  }

  /** The terminal shows just the committed log, or tore while showing one more frame. */
  ghost predicate TerminalOk(c: Client, history: seq<byte>, start: nat) {
    if c.phase.Over? && c.phase.reason.OutputFailed? then TornOk(c, c.phase.reason.frame, history, start)
    else c.terminal == Render(c.log, c.notice)
  }

  /** No honest run ends in an offset or protocol error, and Ended finds everything its writer saw committed. */
  ghost predicate PhaseOk(phase: Phase, received: nat) {
    phase.Over? ==>
      && !phase.reason.BadOffset? && !phase.reason.ProtocolError?
      && (phase.reason.SessionEnded? ==> phase.reason.total == received)
  }

  ghost predicate ClientOk(c: Client, history: seq<byte>, start: nat) {
    TrueLog(c.log, c.received, history, start) && TerminalOk(c, history, start) && PhaseOk(c.phase, c.received)
  }

  ghost predicate ServerOk(s: Server) {
    && s.ring == RingOf(s.history, s.ring.cap)
    && forall id :: id in s.conns ==> ConnOk(s.conns[id], s.history, s.ring.start)
  }

  ghost predicate Inv(s: State) {
    && ServerOk(s.server)
    && ClientOk(s.client, s.server.history, s.server.ring.start)
    && (Linked(s.client.phase) ==>
        && s.client.phase.id in s.server.conns
        && LinkOk(s.client.phase, s.server.conns[s.client.phase.id], s.client.received,
             s.server.history, s.server.ring.start))
  }

  // Preservation: the history grows

  lemma ConnGrows(c: Conn, history: seq<byte>, start: nat, more: seq<byte>, start': nat)
    requires ConnOk(c, history, start) && start <= start'
    ensures ConnOk(c, history + more, start')
  {
  }

  lemma LinkGrows(phase: Phase, c: Conn, received: nat, history: seq<byte>, start: nat, more: seq<byte>, start': nat)
    requires Linked(phase) && LinkOk(phase, c, received, history, start) && start <= start'
    ensures LinkOk(phase, c, received, history + more, start')
  {
    if phase.Streaming? {
      FlowGrows(c.queue, received, history, start, more, start');
    } else if phase.AwaitHello? && c.queue != [] {
      FlowGrows(c.queue[1..], received, history, start, more, start');
    }
  }

  lemma ClientGrows(c: Client, history: seq<byte>, start: nat, more: seq<byte>, start': nat)
    requires ClientOk(c, history, start) && start <= start'
    ensures ClientOk(c, history + more, start')
  {
    assert TrueLog(c.log, c.received, history + more, start');
  }

  lemma ProduceKeeps(s: State, bytes: seq<byte>)
    requires Inv(s) && Enabled(s, Produce(bytes))
    ensures Inv(Next(s, Produce(bytes)))
  {
    var server, server' := s.server, Next(s, Produce(bytes)).server;
    AppendRefines(server.history, server.ring.cap, bytes);
    forall id | id in server'.conns
      ensures ConnOk(server'.conns[id], server'.history, server'.ring.start)
    {
      ConnGrows(server.conns[id], server.history, server.ring.start, bytes, server'.ring.start);
    }
    ClientGrows(s.client, server.history, server.ring.start, bytes, server'.ring.start);
    if Linked(s.client.phase) {
      LinkGrows(s.client.phase, server.conns[s.client.phase.id], s.client.received,
        server.history, server.ring.start, bytes, server'.ring.start);
    }
  }

  // Preservation: a connection's server task takes a step

  /** Reading at a cursor the history has reached yields a frame that follows it, or finds it caught up. */
  lemma ReadFollows(history: seq<byte>, cap: nat, cursor: nat)
    requires cursor <= |history| < U64_LIMIT
    ensures var (offset, data) := RingOf(history, cap).ReadFrom(cursor);
      if data != [] || offset > cursor then
        offset < U64_LIMIT && Follows(Output(offset, data), cursor, history, Oldest(history, cap))
      else
        cursor == |history|
  {
    hide Ring.ReadFrom, RingOf;
    ReadSlicesHistory(history, cap, cursor);
  }

  lemma ReadKeepsConn(c: Conn, offset: u64, data: seq<byte>, history: seq<byte>, start: nat)
    requires ConnOk(c.(pc := Registered), history, start) && c.seen == |history|
    requires if data != [] || offset > c.cursor then Follows(Output(offset, data), c.cursor, history, start)
             else c.cursor == |history|
    ensures ConnOk(AfterRead(c, offset, data), history, start)
  {
  }

  lemma RingTotal(ring: Ring, history: seq<byte>)
    requires ring == RingOf(history, ring.cap)
    ensures ring.Total() == |history|
  {
  }

  lemma RingReadFollows(ring: Ring, history: seq<byte>, cursor: nat)
    requires ring == RingOf(history, ring.cap) && cursor <= |history| < U64_LIMIT
    ensures var (offset, data) := ring.ReadFrom(cursor);
      if data != [] || offset > cursor then
        offset < U64_LIMIT && Follows(Output(offset, data), cursor, history, ring.start)
      else
        cursor == |history|
  {
    hide Follows, Ring.ReadFrom;
    ReadFollows(history, ring.cap, cursor);
  }

  lemma ReadStepKeepsConn(s: Server, c: Conn)
    requires s.ring == RingOf(s.history, s.ring.cap) && ConnOk(c, s.history, s.ring.start) && c.pc == Registered
    ensures ConnOk(StepConn(s, c, Read), s.history, s.ring.start)
  {
    hide AfterRead, Ring.ReadFrom, RingOf, Follows;
    RingTotal(s.ring, s.history);
    RingReadFollows(s.ring, s.history, c.cursor);
    var (offset, data) := s.ring.ReadFrom(c.cursor);
    ReadKeepsConn(c.(seen := |s.history|, drained := Finished(s.reader)), offset, data, s.history, s.ring.start);
  }

  lemma ReplyKeepsConn(s: Server, c: Conn)
    requires s.ring == RingOf(s.history, s.ring.cap) && ConnOk(c, s.history, s.ring.start) && c.pc == Found
    ensures ConnOk(StepConn(s, c, Reply), s.history, s.ring.start)
  {
    RingTotal(s.ring, s.history);
    hide RingOf, Ring.Total;
  }

  lemma WriteKeepsConn(s: Server, c: Conn, e: Step)
    requires ConnOk(c, s.history, s.ring.start) && StepEnabled(c, e) && (e.Write? || e.Finish? || e.Beat?)
    ensures ConnOk(StepConn(s, c, e), s.history, s.ring.start)
  {
    hide AfterRead, Ring.ReadFrom, Ring.Total, RingOf, Follows;
  }

  lemma StepKeepsConn(s: Server, c: Conn, e: Step)
    requires s.ring == RingOf(s.history, s.ring.cap) && ConnOk(c, s.history, s.ring.start)
    requires StepEnabled(c, e)
    ensures ConnOk(StepConn(s, c, e), s.history, s.ring.start)
  {
    if e.Read? {
      hide StepConn;
      ReadStepKeepsConn(s, c);
    } else if e.Reply? {
      hide StepConn;
      ReplyKeepsConn(s, c);
    } else if e.Write? || e.Finish? || e.Beat? {
      hide StepConn;
      WriteKeepsConn(s, c, e);
    } else {
      hide AfterRead, Ring.ReadFrom, Ring.Total, RingOf, Follows;
    }
  }

  lemma StepKeepsGreeting(s: Server, phase: Phase, received: nat, c: Conn, e: Step)
    requires s.ring == RingOf(s.history, s.ring.cap) && received <= |s.history|
    requires StepEnabled(c, e) && phase.AwaitReply? && LinkOk(phase, c, received, s.history, s.ring.start)
    ensures LinkOk(phase, StepConn(s, c, e), received, s.history, s.ring.start)
  {
    AppendRefines(s.history, s.ring.cap, []);
  }

  /** Cutting the stream keeps a chain; it can only lose its end. */
  lemma CutKeepsLink(phase: Phase, c: Conn, received: nat, history: seq<byte>, start: nat, keep: nat)
    requires Linked(phase) && !phase.AwaitReply? && LinkOk(phase, c, received, history, start) && keep <= |c.queue|
    ensures LinkOk(phase, c.(queue := c.queue[..keep], cut := true), received, history, start)
  {
    hide Flow, FlowEnd;
    if phase.Streaming? {
      FlowCut(c.queue, received, history, start, keep);
    } else if keep > 0 {
      FlowCut(c.queue[1..], received, history, start, keep - 1);
      assert c.queue[..keep][1..] == c.queue[1..][..keep - 1];
    }
  }

  /** Where a chain that ended at `sent` ends after one more message. */
  ghost function EndAfter(m: Message, sent: nat): nat {
    if m.Record? && m.frame.Output? then m.frame.offset + |m.frame.data| else sent
  }

  /** A message that continues the stream keeps it a chain. */
  lemma SendKeepsLink(phase: Phase, c: Conn, m: Message, received: nat, history: seq<byte>, start: nat, c': Conn)
    requires Linked(phase) && !phase.AwaitReply? && LinkOk(phase, c, received, history, start)
    requires Writing(c.pc) && !c.cut && Flow([m], c.sent, history, start)
    requires c'.queue == c.queue + [m] && c'.helloed == c.helloed && c'.offset == c.offset && !c'.cut
    requires Writing(c'.pc) ==> !m.Final? && c'.sent == EndAfter(m, c.sent)
    requires !Handshaking(c'.pc)
    ensures LinkOk(phase, c', received, history, start)
  {
    if phase.Streaming? {
      FlowExtends(c.queue, received, history, start, m);
    } else {
      FlowExtends(c.queue[1..], received, history, start, m);
      assert c'.queue[1..] == c.queue[1..] + [m];
    }
  }

  /** A step that writes nothing to the client leaves the link as it was. */
  lemma QuietKeepsLink(phase: Phase, c: Conn, received: nat, history: seq<byte>, start: nat, c': Conn)
    requires Linked(phase) && !phase.AwaitReply? && LinkOk(phase, c, received, history, start)
    requires c'.queue == c.queue && c'.helloed == c.helloed && c'.offset == c.offset && c'.cut == c.cut
    requires Writing(c'.pc) ==> Writing(c.pc) && (c'.sent == c.sent || c.cut)
    requires c'.pc == Hailed || c'.pc == Found || c'.pc == Replied ==> c'.pc == c.pc
    ensures LinkOk(phase, c', received, history, start)
  {
  }

  /** Which steps write a frame that reaches the wire. */
  predicate Writes(c: Conn, e: Step) {
    (e.Write? || e.Finish? || e.Beat?) && e.ok && !c.cut
  }

  lemma WrittenMessage(s: Server, c: Conn, e: Step)
    requires ConnOk(c, s.history, s.ring.start) && StepEnabled(c, e) && Writes(c, e)
    ensures var c' := StepConn(s, c, e);
      && |c'.queue| == |c.queue| + 1
      && var m := c'.queue[|c.queue|];
      && Writing(c.pc) && c'.queue == c.queue + [m] && Flow([m], c.sent, s.history, s.ring.start)
      && (Writing(c'.pc) ==> !m.Final? && c'.sent == EndAfter(m, c.sent))
  {
  }

  lemma QuietRead(s: Server, c: Conn)
    requires c.pc == Registered
    ensures var d := StepConn(s, c, Read);
      && d == c.(pc := d.pc, cursor := d.cursor, seen := d.seen, drained := d.drained)
      && (d.pc.Emitting? || d.pc == Checking)
  {
    hide Ring.ReadFrom, Ring.Total;
  }

  lemma QuietStep(s: Server, c: Conn, e: Step)
    requires StepEnabled(c, e) && !e.Cut? && !e.Auth? && !Writes(c, e) && c.pc != Hailed && c.pc != Found
    ensures var c' := StepConn(s, c, e);
      && c'.queue == c.queue && c'.helloed == c.helloed && c'.offset == c.offset && c'.cut == c.cut
      && (Writing(c'.pc) ==> Writing(c.pc) && (c'.sent == c.sent || c.cut))
      && c'.pc != Hailed && c'.pc != Found && c'.pc != Replied
  {
    if e.Read? {
      hide StepConn;
      QuietRead(s, c);
    } else {
      hide AfterRead, Ring.ReadFrom, Ring.Total;
    }
  }

  lemma CutStep(s: Server, c: Conn, e: Step)
    requires StepEnabled(c, e) && e.Cut?
    ensures StepConn(s, c, e) == c.(queue := c.queue[..e.keep], cut := true)
  {
  }

  /** Past the greeting the connection has left the first two stations. */
  lemma LinkPc(phase: Phase, c: Conn, received: nat, history: seq<byte>, start: nat)
    requires Linked(phase) && !phase.AwaitReply? && LinkOk(phase, c, received, history, start)
    ensures c.pc != Hailed && c.pc != Found
  {
  }

  /** A frame written leaves the rest of the connection that the link looks at. */
  lemma WrittenConn(s: Server, c: Conn, e: Step)
    requires StepEnabled(c, e) && Writes(c, e)
    ensures var d := StepConn(s, c, e);
      d.helloed == c.helloed && d.offset == c.offset && !d.cut && !Handshaking(d.pc)
  {
    hide Ring.ReadFrom, Ring.Total;
  }

  /** The server's hello is the first frame of the encrypted stream. */
  lemma AuthKeepsLink(s: Server, phase: Phase, received: nat, c: Conn)
    requires ConnOk(c, s.history, s.ring.start) && StepEnabled(c, Auth)
    requires Linked(phase) && !phase.AwaitReply? && LinkOk(phase, c, received, s.history, s.ring.start)
    ensures LinkOk(phase, StepConn(s, c, Auth), received, s.history, s.ring.start)
  {
    hide Ring.ReadFrom, AfterRead, RingOf;
    var d := StepConn(s, c, Auth);
    assert d.queue == if c.cut then [] else [Record(Hello)];
  }

  lemma StepKeepsLink(s: Server, phase: Phase, received: nat, c: Conn, e: Step)
    requires s.ring == RingOf(s.history, s.ring.cap) && ConnOk(c, s.history, s.ring.start)
    requires Linked(phase) && LinkOk(phase, c, received, s.history, s.ring.start) && received <= |s.history|
    requires StepEnabled(c, e)
    ensures LinkOk(phase, StepConn(s, c, e), received, s.history, s.ring.start)
  {
    hide LinkOk, StepConn, RingOf, ConnOk;
    var c' := StepConn(s, c, e);
    if phase.AwaitReply? {
      StepKeepsGreeting(s, phase, received, c, e);
    } else if e.Cut? {
      CutStep(s, c, e);
      CutKeepsLink(phase, c, received, s.history, s.ring.start, e.keep);
    } else if e.Auth? {
      AuthKeepsLink(s, phase, received, c);
    } else if Writes(c, e) {
      WrittenMessage(s, c, e);
      WrittenConn(s, c, e);
      SendKeepsLink(phase, c, c'.queue[|c.queue|], received, s.history, s.ring.start, c');
    } else {
      LinkPc(phase, c, received, s.history, s.ring.start);
      QuietStep(s, c, e);
      QuietKeepsLink(phase, c, received, s.history, s.ring.start, c');
    }
  }

  lemma ConnChangeKeeps(s: Server, s': Server, id: nat, c: Conn)
    requires ServerOk(s) && s'.history == s.history && s'.ring == s.ring && s'.conns == s.conns[id := c]
    requires ConnOk(c, s.history, s.ring.start)
    ensures ServerOk(s')
  {
  }

  lemma ServeKeeps(s: State, id: nat, step: Step)
    requires Inv(s) && Enabled(s, Serve(id, step))
    ensures Inv(Next(s, Serve(id, step)))
  {
    var server, c, phase := s.server, s.server.conns[id], s.client.phase;
    var shared := StepShared(server, c, step);
    StepKeepsConn(server, c, step);
    if Linked(phase) && phase.id == id {
      StepKeepsLink(server, phase, s.client.received, c, step);
    }
    assert shared.history == server.history && shared.ring == server.ring;
    ConnChangeKeeps(server, Next(s, Serve(id, step)).server, id, StepConn(server, c, step));
  }

  lemma NotifyKeeps(s: State, who: Who)
    requires Inv(s) && Enabled(s, Notify(who))
    ensures Inv(Next(s, Notify(who)))
  {
    var server, server' := s.server, Next(s, Notify(who)).server;
    forall id | id in server'.conns
      ensures ConnOk(server'.conns[id], server.history, server.ring.start)
    {
      assert ConnOk(server.conns[id], server.history, server.ring.start);
    }
    if Linked(s.client.phase) {
      var c := server.conns[s.client.phase.id];
      assert server'.conns[s.client.phase.id] == Awaken(c);
      assert LinkOk(s.client.phase, Awaken(c), s.client.received, server.history, server.ring.start);
    }
  }

  // Preservation: the client takes a message

  /** A frame that follows the committed offset keeps the log true and adds its own text to the rendering. */
  lemma ShowCommits(log: seq<Item>, received: nat, f: Frame, history: seq<byte>, start: nat, notice: Wording)
    requires TrueLog(log, received, history, start) && Follows(f, received, history, start)
    ensures var items := AcceptItems(received, f.offset, f.data);
      && TrueLog(log + items, f.offset + |f.data|, history, start)
      && Render(log + items, notice) == Render(log, notice) + FrameText(received, f.offset, f.data, notice)
  {
    AcceptSpans(log, received, f.offset, f.data);
    AcceptFaithful(log, received, f.offset, f.data, history, start);
    FrameRendering(log, received, f.offset, f.data, notice);
  }

  lemma Torn(shown: seq<byte>, text: seq<byte>, k: nat)
    requires k <= |text|
    ensures shown <= shown + text[..k] <= shown + text
  {
  }

  lemma ShowKeepsClient(c: Client, f: Frame, failAt: Option<nat>, history: seq<byte>, start: nat)
    requires ClientOk(c, history, start) && !c.phase.Over? && Follows(f, c.received, history, start)
    requires |history| < U64_LIMIT
    ensures ClientOk(Show(c, f.offset, f.data, failAt), history, start)
  {
    hide TrueLog, Render, AcceptItems, FrameText;
    ShowCommits(c.log, c.received, f, history, start, c.notice);
    if failAt.Some? {
      var text := FrameText(c.received, f.offset, f.data, c.notice);
      Torn(c.terminal, text, Min(failAt.value, |text|));
    }
  }

  /** The client changes phase and shows nothing. */
  lemma PhaseKeepsClient(c: Client, c': Client, history: seq<byte>, start: nat)
    requires ClientOk(c, history, start) && !c.phase.Over?
    requires c' == c.(phase := c'.phase, established := c'.established)
    requires c'.phase.Over? ==> !c'.phase.reason.OutputFailed? && PhaseOk(c'.phase, c.received)
    ensures ClientOk(c', history, start)
  {
  }

  lemma DeliverKeepsClient(c: Client, conn: Conn, failAt: Option<nat>, history: seq<byte>, start: nat)
    requires ClientOk(c, history, start) && Linked(c.phase) && LinkOk(c.phase, conn, c.received, history, start)
    requires conn.queue != [] && |history| < U64_LIMIT
    ensures ClientOk(Deliver(c, conn.queue[0], failAt), history, start)
  {
    hide TrueLog, Render, Show;
    var m := conn.queue[0];
    if c.phase.Streaming? && m.Record? && m.frame.Output? {
      ShowKeepsClient(c, m.frame, failAt, history, start);
    } else {
      PhaseKeepsClient(c, Deliver(c, m, failAt), history, start);
    }
  }

  /** Taking the head of a chain leaves a chain from where that frame ends. */
  lemma TakenStream(c: Conn, q: seq<Message>, received: nat, history: seq<byte>, start: nat)
    requires StreamOk(c, q, received, history, start) && q != [] && q[0].Record?
    ensures StreamOk(c, q[1..], EndAfter(q[0], received), history, start)
  {
  }

  lemma DeliverKeepsStream(c: Client, conn: Conn, failAt: Option<nat>, history: seq<byte>, start: nat)
    requires c.phase.Streaming? && LinkOk(c.phase, conn, c.received, history, start) && conn.queue != []
    ensures var c' := Deliver(c, conn.queue[0], failAt);
      Linked(c'.phase) ==> c'.phase == c.phase && StreamOk(conn, conn.queue[1..], c'.received, history, start)
  {
    var m := conn.queue[0];
    if m.Record? {
      TakenStream(conn, conn.queue, c.received, history, start);
      if m.frame.Output? {
        assert Follows(m.frame, c.received, history, start);
      }
    }
  }

  lemma DeliverKeepsLink(c: Client, conn: Conn, failAt: Option<nat>, history: seq<byte>, start: nat)
    requires Linked(c.phase) && LinkOk(c.phase, conn, c.received, history, start) && conn.queue != []
    ensures var c' := Deliver(c, conn.queue[0], failAt);
      Linked(c'.phase) ==>
        && c'.phase.id == c.phase.id
        && LinkOk(c'.phase,
             conn.(queue := conn.queue[1..], helloed := conn.helloed || (c.phase.AwaitReply? && c'.phase.AwaitHello?)),
             c'.received, history, start)
  {
    if c.phase.Streaming? {
      DeliverKeepsStream(c, conn, failAt, history, start);
    }
  }

  lemma ReceiveKeeps(s: State, failAt: Option<nat>)
    requires Inv(s) && Enabled(s, Receive(failAt))
    ensures Inv(Next(s, Receive(failAt)))
  {
    var server, id := s.server, s.client.phase.id;
    var conn, s' := server.conns[id], Next(s, Receive(failAt));
    AppendRefines(server.history, server.ring.cap, []);
    DeliverKeepsClient(s.client, conn, failAt, server.history, server.ring.start);
    DeliverKeepsLink(s.client, conn, failAt, server.history, server.ring.start);
    var conn' := s'.server.conns[id];
    assert conn' == conn.(queue := conn'.queue, helloed := conn'.helloed);
    ConnChangeKeeps(server, s'.server, id, conn');
  }

  // Preservation: the remaining steps

  lemma HailKeeps(s: State, e: Event)
    requires Inv(s) && Enabled(s, e) && (e.Dial? || e.Stranger?)
    ensures Inv(Next(s, e))
  {
    ConnChangeKeeps(s.server, Next(s, e).server, e.id, Next(s, e).server.conns[e.id]);
  }

  lemma ClientStepKeeps(s: State, e: Event)
    requires Inv(s) && Enabled(s, e) && (e.Drop? || e.Detach?)
    ensures Inv(Next(s, e))
  {
    PhaseKeepsClient(s.client, Next(s, e).client, s.server.history, s.server.ring.start);
  }

  lemma SwapKeeps(s: State, who: Who)
    requires Inv(s) && Enabled(s, Swap(who))
    ensures Inv(Next(s, Swap(who)))
  {
  }

  lemma NextKeeps(s: State, e: Event)
    requires Inv(s) && Enabled(s, e)
    ensures Inv(Next(s, e))
  {
    match e {
      case Produce(bytes) => ProduceKeeps(s, bytes);
      case Swap(who) => SwapKeeps(s, who);
      case Notify(who) => NotifyKeeps(s, who);
      case Dial(_) => HailKeeps(s, e);
      case Stranger(_, _) => HailKeeps(s, e);
      case Serve(id, step) => ServeKeeps(s, id, step);
      case Receive(failAt) => ReceiveKeeps(s, failAt);
      case Drop => ClientStepKeeps(s, e);
      case Detach => ClientStepKeeps(s, e);
    }
  }

  lemma {:induction false} InvAlways(cap: nat, notice: Wording, run: Run, k: nat)
    requires run.Valid(cap, notice) && k < |run.states|
    ensures Inv(run.states[k])
  {
    if k > 0 {
      hide *;
      InvAlways(cap, notice, run, k - 1);
      StepOf(cap, notice, run, k);
      NextKeeps(run.states[k - 1], run.events[k - 1]);
    }
  }

  // History, log, terminal and eviction only ever grow

  ghost predicate OlderClient(c: Client, d: Client) {
    c.log <= d.log && c.terminal <= d.terminal && c.received <= d.received && c.notice == d.notice
  }

  ghost predicate Older(s: State, t: State) {
    && s.server.history <= t.server.history && s.server.ring.start <= t.server.ring.start
    && s.server.ring.cap == t.server.ring.cap && OlderClient(s.client, t.client)
  }

  lemma DeliverGrows(c: Client, m: Message, failAt: Option<nat>)
    requires Linked(c.phase)
    ensures OlderClient(c, Deliver(c, m, failAt))
  {
    if !(c.phase.Streaming? && m.Record? && m.frame.Output?) {
      var c' := Deliver(c, m, failAt);
      assert c' == c.(phase := c'.phase, established := c'.established);
    }
  }

  lemma ServerGrows(s: State, e: Event)
    requires Inv(s) && Enabled(s, e) && (e.Produce? || e.Swap? || e.Notify? || e.Serve?)
    ensures Older(s, Next(s, e))
  {
    if e.Produce? {
      AppendRefines(s.server.history, s.server.ring.cap, e.bytes);
    } else {
      var server' := Next(s, e).server;
      assert server'.history == s.server.history && server'.ring == s.server.ring;
    }
  }

  lemma StepGrows(s: State, e: Event)
    requires Inv(s) && Enabled(s, e)
    ensures Older(s, Next(s, e))
  {
    match e {
      case Receive(failAt) => DeliverGrows(s.client, s.server.conns[s.client.phase.id].queue[0], failAt);
      case Dial(_) =>
      case Stranger(_, _) =>
      case Drop =>
      case Detach =>
      case _ => ServerGrows(s, e);
    }
  }

  lemma OlderSelf(s: State)
    ensures Older(s, s)
  {
  }

  lemma OlderStill(s: State, t: State, u: State)
    requires Older(s, t) && Older(t, u)
    ensures Older(s, u)
  {
  }

  lemma {:induction false} RunGrows(cap: nat, notice: Wording, run: Run, j: nat, k: nat)
    requires run.Valid(cap, notice) && j <= k < |run.states|
    ensures Older(run.states[j], run.states[k])
    decreases k
  {
    hide *;
    if j == k {
      OlderSelf(run.states[j]);
    } else {
      RunGrows(cap, notice, run, j, k - 1);
      InvAlways(cap, notice, run, k - 1);
      StepOf(cap, notice, run, k);
      StepGrows(run.states[k - 1], run.events[k - 1]);
      OlderStill(run.states[j], run.states[k - 1], run.states[k]);
    }
  }

  /** The parameters of a run stay what they were at its start. */
  lemma Parameters(cap: nat, notice: Wording, run: Run, k: nat)
    requires run.Valid(cap, notice) && k < |run.states|
    ensures run.states[k].client.notice == notice && run.states[k].server.ring.cap == cap
  {
    RunGrows(cap, notice, run, 0, k);
  }

  // The theorems, about every state of every run

  /** Exact resume: the client's log partitions what it has committed, every byte shown is the byte of the
      true history at its offset, and shown bytes plus reported gaps account for the whole committed range. */
  lemma ExactResume(cap: nat, notice: Wording, run: Run, k: nat)
    requires run.Valid(cap, notice) && k < |run.states|
    ensures var s := run.states[k];
      var c := s.client;
      && c.received <= |s.server.history| && Spans(c.log, c.received) && Faithful(c.log, s.server.history)
      && ShownCount(c.log) + MissingCount(c.log) == c.received
  {
    InvAlways(cap, notice, run, k);
    Conservation(run.states[k].client.log, run.states[k].client.received);
  }

  /** A byte is shown at most once and in order: the terminal holds the rendering of the committed log,
      and after a terminal failure at most a beginning of one more frame, never to be resumed. */
  lemma AtMostOnceDisplay(cap: nat, notice: Wording, run: Run, k: nat)
    requires run.Valid(cap, notice) && k < |run.states|
    ensures var c := run.states[k].client;
      if c.phase.Over? && c.phase.reason.OutputFailed? then
        && var f := c.phase.reason.frame;
        && f.Output? && c.received <= f.offset
        && Render(c.log, notice) <= c.terminal
        && c.terminal <= Render(c.log, notice) + FrameText(c.received, f.offset, f.data, notice)
      else
        c.terminal == Render(c.log, notice)
  {
    InvAlways(cap, notice, run, k);
    Parameters(cap, notice, run, k);
  }

  /** Gaps are honest: a gap reported by step `j` lies below the ring's start from then on, stays in the
      log, and what the terminal showed by then is never shown again or taken back. */
  lemma GapsStayEvicted(cap: nat, notice: Wording, run: Run, j: nat, k: nat)
    requires run.Valid(cap, notice) && j <= k < |run.states|
    ensures var before, now := run.states[j], run.states[k];
      && Honest(before.client.log, now.server.ring.start) && Honest(now.client.log, now.server.ring.start)
      && before.client.log <= now.client.log && before.client.terminal <= now.client.terminal
  {
    RunGrows(cap, notice, run, j, k);
    InvAlways(cap, notice, run, j);
    InvAlways(cap, notice, run, k);
  }

  /** If the output never exceeds the ring, no gap is ever reported and the terminal shows the history
      itself up to the committed offset, across any number of reconnects. */
  lemma WithinRingIsExact(cap: nat, notice: Wording, run: Run, k: nat)
    requires run.Valid(cap, notice) && k < |run.states| && |run.states[k].server.history| <= cap
    ensures var s := run.states[k];
      var c := s.client;
      && c.received <= |s.server.history| && (forall i :: 0 <= i < |c.log| ==> c.log[i].Shown?)
      && (!(c.phase.Over? && c.phase.reason.OutputFailed?) ==> c.terminal == s.server.history[..c.received])
  {
    InvAlways(cap, notice, run, k);
    Parameters(cap, notice, run, k);
    var c := run.states[k].client;
    SpansBelow(c.log, c.received);
    GaplessRendersHistory(c.log, c.received, run.states[k].server.history, notice);
  }

  /** The frames in flight on the live connection chain from what the client has committed to what the
      server has sent, and the server has read no further than the history: no frame repeats a byte. */
  lemma InFlightChain(cap: nat, notice: Wording, run: Run, k: nat)
    requires run.Valid(cap, notice) && k < |run.states|
    ensures var s := run.states[k];
      s.client.phase.Streaming? ==>
        && s.client.phase.id in s.server.conns
        && var c := s.server.conns[s.client.phase.id];
        && Flow(c.queue, s.client.received, s.server.history, s.server.ring.start)
        && (Writing(c.pc) ==>
            c.sent <= c.cursor <= |s.server.history| && (!c.cut ==> FlowEnd(c.queue, s.client.received) == c.sent))
  {
    InvAlways(cap, notice, run, k);
  }

  /** Neither side ever rejects an honest client's resume offset, and no frame is a protocol error. */
  lemma NoFalseRejection(cap: nat, notice: Wording, run: Run, k: nat)
    requires run.Valid(cap, notice) && k < |run.states|
    ensures var s := run.states[k];
      && s.client.phase != Over(BadOffset) && s.client.phase != Over(ProtocolError)
      && (s.client.phase.AwaitReply? ==>
          && s.client.phase.id in s.server.conns
          && s.server.conns[s.client.phase.id].offset == s.client.received <= s.server.ring.Total())
  {
    InvAlways(cap, notice, run, k);
    AppendRefines(run.states[k].server.history, run.states[k].server.ring.cap, []);
  }

  /** When the client learns the session ended it has committed every byte its writer saw at its last read. */
  lemma EndedIsComplete(cap: nat, notice: Wording, run: Run, k: nat, total: nat, drained: bool)
    requires run.Valid(cap, notice) && k < |run.states|
    requires run.states[k].client.phase == Over(SessionEnded(total, drained))
    ensures var s := run.states[k];
      && s.client.received == total <= |s.server.history|
      && Spans(s.client.log, total) && Faithful(s.client.log, s.server.history)
  {
    InvAlways(cap, notice, run, k);
  }
}
