/** What the Ended frame promises: the writer reads the ring and the ended flag in separate steps. */
module EndOfSession {
  import opened Bytes
  import opened ReplayRing
  import opened ClientOutput
  import Frames
  import opened Protocol
  import Replay

  /** A total read after the PTY reader had finished is the final one. */
  predicate FinalTotal(seen: nat, drained: bool, s: Server) {
    drained ==> Finished(s.reader) && seen == |s.history|
  }

  ghost predicate ConnOk(c: Conn, s: Server) {
    && FinalTotal(c.seen, c.drained, s)
    && forall i :: 0 <= i < |c.queue| && c.queue[i].Final? ==> FinalTotal(c.queue[i].seen, c.queue[i].drained, s)
  }

  ghost predicate Inv(s: State) {
    && (forall id :: id in s.server.conns ==> ConnOk(s.server.conns[id], s.server))
    && (s.client.phase.Over? && s.client.phase.reason.SessionEnded? ==>
        FinalTotal(s.client.phase.reason.total, s.client.phase.reason.drained, s.server))
  }

  lemma StepKeeps(s: Server, c: Conn, e: Step)
    requires s.ring.Total() == |s.history| && ConnOk(c, s) && StepEnabled(c, e)
    ensures ConnOk(StepConn(s, c, e), s)
  {
    hide Ring.ReadFrom;
  }

  lemma ServerKeeps(s: Server, e: Event)
    requires s.ring.Total() == |s.history| && forall id :: id in s.conns ==> ConnOk(s.conns[id], s)
    requires e.Produce? || e.Swap? || e.Notify? || e.Serve?
    requires e.Produce? ==> s.reader == Running && s.ring.Total() + |e.bytes| < U64_LIMIT
    requires e.Serve? ==> e.id in s.conns && StepEnabled(s.conns[e.id], e.step)
    requires e.Swap? ==> ProducerOf(s, e.who) == Running
    requires e.Notify? ==> ProducerOf(s, e.who) == Dirty || ProducerOf(s, e.who) == Swapped
    ensures var s' := ServerNext(s, e);
      && (Finished(s.reader) ==> Finished(s'.reader) && s'.history == s.history)
      && forall id :: id in s'.conns ==> ConnOk(s'.conns[id], s')
  {
    hide StepConn, Ring.Append;
    var s' := ServerNext(s, e);
    assert Finished(s.reader) ==> Finished(s'.reader) && s'.history == s.history;
    if e.Serve? {
      StepKeeps(s, s.conns[e.id], e.step);
      assert s'.history == s.history && s'.reader == s.reader;
    }
    forall id | id in s'.conns
      ensures ConnOk(s'.conns[id], s')
    {
      assert (e.Serve? && id == e.id) || ConnOk(s.conns[id], s);
    }
  }

  lemma ReceiveKeeps(s: State, failAt: Option<nat>)
    requires Inv(s) && Enabled(s, Receive(failAt))
    ensures Inv(Next(s, Receive(failAt)))
  {
    var id, s' := s.client.phase.id, Next(s, Receive(failAt));
    var c := s.server.conns[id];
    assert ConnOk(c, s.server);
    forall k | k in s'.server.conns
      ensures ConnOk(s'.server.conns[k], s'.server)
    {
      assert ConnOk(s.server.conns[k], s.server);
    }
    assert c.queue[0].Final? ==> FinalTotal(c.queue[0].seen, c.queue[0].drained, s.server);
  }

  lemma NextKeeps(s: State, e: Event)
    requires Replay.Inv(s) && Inv(s) && Enabled(s, e)
    ensures Inv(Next(s, e))
  {
    AppendRefines(s.server.history, s.server.ring.cap, []);
    match e {
      case Receive(failAt) => ReceiveKeeps(s, failAt);
      case Dial(_) =>
      case Stranger(_, _) =>
      case Drop =>
      case Detach =>
      case _ => ServerKeeps(s.server, e);
    }
  }

  lemma {:induction false} InvAlways(cap: nat, notice: Wording, run: Run, k: nat)
    requires run.Valid(cap, notice) && k < |run.states|
    ensures Inv(run.states[k])
  {
    if k > 0 {
      hide *;
      InvAlways(cap, notice, run, k - 1);
      Replay.InvAlways(cap, notice, run, k - 1);
      StepOf(cap, notice, run, k);
      NextKeeps(run.states[k - 1], run.events[k - 1]);
    }
  }

  /** If the PTY reader had finished when the writer last read, a client that is told the session
      ended has committed the session's whole output. */
  lemma EndedAfterDrain(cap: nat, notice: Wording, run: Run, k: nat, total: nat)
    requires run.Valid(cap, notice) && k < |run.states|
    requires run.states[k].client.phase == Over(SessionEnded(total, true))
    ensures var s := run.states[k];
      s.client.received == |s.server.history| && Spans(s.client.log, |s.server.history|)
  {
    InvAlways(cap, notice, run, k);
    Replay.EndedIsComplete(cap, notice, run, k, total, true);
  }

  // The exact condition, over the run

  /** Connection `id` read the ring at step `j` of the run, when `total` bytes had been appended. */
  ghost predicate ReadAt(run: Run, id: nat, total: nat, j: nat) {
    && j < |run.events| && j < |run.states|
    && run.events[j] == Serve(id, Read) && |run.states[j].server.history| == total
  }

  /** And that was its last read within the first `n` steps. */
  ghost predicate LastReadAt(run: Run, n: nat, id: nat, total: nat, j: nat) {
    && j < n <= |run.events| && ReadAt(run, id, total, j)
    && forall i :: j < i < n ==> run.events[i] != Serve(id, Read)
  }

  ghost predicate LastRead(run: Run, n: nat, id: nat, total: nat) {
    exists j: nat :: LastReadAt(run, n, id, total, j)
  }

  /** The connection's writer reads no more. */
  predicate DoneReading(pc: Pc) {
    pc == Exiting || pc == Leaving || pc == Gone
  }

  ghost predicate ConnTraced(run: Run, n: nat, id: nat, c: Conn) {
    && (c.pc == Checking || c.pc == Finishing ==> LastRead(run, n, id, c.seen))
    && forall i :: 0 <= i < |c.queue| && c.queue[i].Final? ==>
         DoneReading(c.pc) && LastRead(run, n, id, c.queue[i].seen)
  }

  /** At step `i` the client, streaming on that connection, took the record that ended the session for it. */
  ghost predicate TookEnded(run: Run, told: Phase, id: nat, i: nat)
    requires i < |run.events| && i + 1 < |run.states|
  {
    && run.events[i].Receive? && run.states[i].client.phase == Streaming(id)
    && run.states[i + 1].client.phase == told
  }

  /** That step told the client of the end at `total`, where the connection's writer last read. */
  ghost predicate ToldBy(run: Run, n: nat, s: State, total: nat, id: nat, i: nat) {
    && id in s.server.conns && DoneReading(s.server.conns[id].pc) && LastRead(run, n, id, total)
    && i < n <= |run.events| && n < |run.states| && TookEnded(run, s.client.phase, id, i)
  }

  predicate WasTold(c: Client) {
    c.phase.Over? && c.phase.reason.SessionEnded?
  }

  ghost predicate ClientTraced(run: Run, n: nat, s: State) {
    WasTold(s.client) ==> exists id: nat, i: nat :: ToldBy(run, n, s, s.client.phase.reason.total, id, i)
  }

  ghost predicate Traced(run: Run, n: nat, s: State) {
    (forall id :: id in s.server.conns ==> ConnTraced(run, n, id, s.server.conns[id])) && ClientTraced(run, n, s)
  }

  /** A connection's last read stays its last until it reads again. */
  lemma ReadStays(run: Run, n: nat, id: nat)
    requires n < |run.events| && run.events[n] != Serve(id, Read)
    ensures forall total: nat :: LastRead(run, n, id, total) ==> LastRead(run, n + 1, id, total)
  {
    forall total: nat | LastRead(run, n, id, total)
      ensures LastRead(run, n + 1, id, total)
    {
      var j: nat :| LastReadAt(run, n, id, total, j);
      assert LastReadAt(run, n + 1, id, total, j);
    }
  }

  lemma ReadShape(s: Server, c: Conn)
    requires c.pc == Registered
    ensures var d := StepConn(s, c, Read);
      d.queue == c.queue && d.seen == s.ring.Total() && (d.pc.Emitting? || d.pc == Checking)
  {
    hide Ring.ReadFrom, Ring.Total;
  }

  /** What the tracing looks at of the connection that steps. */
  lemma StepShape(s: Server, c: Conn, step: Step)
    requires StepEnabled(c, step)
    ensures var d := StepConn(s, c, step);
      && (step.Read? ==> d.queue == c.queue && d.seen == s.ring.Total())
      && (d.pc == Checking || d.pc == Finishing ==>
           step.Read? || ((c.pc == Checking || c.pc == Finishing) && d.seen == c.seen))
      && (DoneReading(c.pc) ==> DoneReading(d.pc))
      && forall i :: 0 <= i < |d.queue| && d.queue[i].Final? ==>
           || (DoneReading(d.pc) && c.pc == Finishing && d.queue[i].seen == c.seen)
           || (i < |c.queue| && d.queue[i] == c.queue[i])
  {
    hide Ring.ReadFrom, Ring.Total;
    if step.Read? {
      ReadShape(s, c);
      hide StepConn;
    } else {
      hide AfterRead;
    }
  }

  /** A read is recorded by the step that makes it, every other step carries the record along. */
  lemma StepTraced(run: Run, n: nat, s: Server, id: nat, c: Conn, step: Step)
    requires n < |run.events| && run.events[n] == Serve(id, step)
    requires ConnTraced(run, n, id, c) && StepEnabled(c, step)
    requires step.Read? ==> LastRead(run, n + 1, id, s.ring.Total())
    ensures ConnTraced(run, n + 1, id, StepConn(s, c, step))
  {
    StepShape(s, c, step);
    if step.Read? {
      assert !DoneReading(c.pc);
    } else {
      ReadStays(run, n, id);
    }
    hide StepConn, LastRead;
  }

  lemma StaysTraced(run: Run, n: nat, id: nat, c: Conn)
    requires n < |run.events| && run.events[n] != Serve(id, Read) && ConnTraced(run, n, id, c)
    ensures ConnTraced(run, n + 1, id, c)
  {
    ReadStays(run, n, id);
    hide LastRead;
  }

  lemma ServeTraced(run: Run, n: nat, s: Server, id: nat, step: Step)
    requires n < |run.events| && run.events[n] == Serve(id, step) && id in s.conns && StepEnabled(s.conns[id], step)
    requires forall k :: k in s.conns ==> ConnTraced(run, n, k, s.conns[k])
    requires step.Read? ==> LastRead(run, n + 1, id, s.ring.Total())
    ensures var t := ServerNext(s, Serve(id, step));
      && t.conns.Keys == s.conns.Keys
      && (forall k :: k in t.conns ==> ConnTraced(run, n + 1, k, t.conns[k]))
      && (forall k :: k in s.conns && DoneReading(s.conns[k].pc) ==> DoneReading(t.conns[k].pc))
  {
    StepTraced(run, n, s, id, s.conns[id], step);
    StepShape(s, s.conns[id], step);
    hide StepConn, LastRead, ConnTraced;
    var t := ServerNext(s, Serve(id, step));
    forall k | k in t.conns
      ensures ConnTraced(run, n + 1, k, t.conns[k])
    {
      if k != id {
        StaysTraced(run, n, k, s.conns[k]);
      }
    }
  }

  /** Any other step leaves of a connection what the tracing looks at, or takes the head of its queue. */
  predicate SameTrace(c: Conn, d: Conn) {
    d.pc == c.pc && d.seen == c.seen && (d.queue == c.queue || (c.queue != [] && d.queue == c.queue[1..]))
  }

  lemma OtherShape(s: State, e: Event)
    requires Enabled(s, e) && !e.Serve?
    ensures var t := Next(s, e).server;
      && s.server.conns.Keys <= t.conns.Keys
      && forall k :: k in t.conns ==>
           if k in s.server.conns then SameTrace(s.server.conns[k], t.conns[k])
           else t.conns[k].pc == Hailed && t.conns[k].queue == []
  {
    hide Deliver, Ring.Append, StepConn, StepEnabled;
  }

  lemma SameTraced(run: Run, n: nat, id: nat, c: Conn, d: Conn)
    requires ConnTraced(run, n, id, c) && SameTrace(c, d)
    ensures ConnTraced(run, n, id, d)
  {
    hide LastRead;
  }

  lemma OthersTraced(run: Run, n: nat, s: State, e: Event)
    requires n < |run.events| && run.events[n] == e && !e.Serve? && Enabled(s, e)
    requires forall k :: k in s.server.conns ==> ConnTraced(run, n, k, s.server.conns[k])
    ensures var t := Next(s, e).server;
      && s.server.conns.Keys <= t.conns.Keys
      && (forall k :: k in t.conns ==> ConnTraced(run, n + 1, k, t.conns[k]))
      && (forall k :: k in s.server.conns && DoneReading(s.server.conns[k].pc) ==> DoneReading(t.conns[k].pc))
  {
    hide LastRead, Next, Enabled;
    OtherShape(s, e);
    var t := Next(s, e).server;
    forall k | k in t.conns
      ensures ConnTraced(run, n + 1, k, t.conns[k])
    {
      if k in s.server.conns {
        StaysTraced(run, n, k, s.server.conns[k]);
        SameTraced(run, n + 1, k, s.server.conns[k], t.conns[k]);
      }
    }
  }

  /** The client learns of the end from the connection it is streaming on. */
  lemma ToldTraced(run: Run, n: nat, s: State, failAt: Option<nat>)
    requires n < |run.events| && n + 1 < |run.states| && run.states[n] == s && run.events[n] == Receive(failAt)
    requires Enabled(s, Receive(failAt)) && !WasTold(s.client) && WasTold(Next(s, Receive(failAt)).client)
    requires run.states[n + 1].client.phase == Next(s, Receive(failAt)).client.phase
    requires ConnTraced(run, n, s.client.phase.id, s.server.conns[s.client.phase.id])
    ensures ClientTraced(run, n + 1, Next(s, Receive(failAt)))
  {
    var id, t := s.client.phase.id, Next(s, Receive(failAt));
    var m := s.server.conns[id].queue[0];
    assert s.client.phase == Streaming(id) && m.Final? && t.client.phase.reason.total == m.seen;
    ReadStays(run, n, id);
    assert ToldBy(run, n + 1, t, m.seen, id, n);
  }

  lemma ClientStays(run: Run, n: nat, s: State, t: State)
    requires n < |run.events| && n + 1 < |run.states| && ClientTraced(run, n, s) && t.client.phase == s.client.phase
    requires run.events[n].Serve? ==>
      run.events[n].id in s.server.conns && StepEnabled(s.server.conns[run.events[n].id], run.events[n].step)
    requires s.server.conns.Keys <= t.server.conns.Keys
    requires forall k :: k in s.server.conns && DoneReading(s.server.conns[k].pc) ==> DoneReading(t.server.conns[k].pc)
    ensures ClientTraced(run, n + 1, t)
  {
    if WasTold(s.client) {
      var total := s.client.phase.reason.total;
      var id: nat, i: nat :| ToldBy(run, n, s, total, id, i);
      assert run.events[n] != Serve(id, Read);
      ReadStays(run, n, id);
      assert ToldBy(run, n + 1, t, total, id, i);
    }
  }

  /** Once told, the client does nothing more. */
  lemma ToldIsOver(s: State, e: Event)
    requires Enabled(s, e) && (WasTold(s.client) || !e.Receive?)
    ensures WasTold(s.client) ==> Next(s, e).client.phase == s.client.phase
    ensures !WasTold(s.client) ==> !WasTold(Next(s, e).client)
  {
    hide ServerNext;
  }

  lemma NextClientTraced(run: Run, n: nat, s: State, t: State, e: Event)
    requires n < |run.events| && n + 1 < |run.states| && run.states[n] == s && run.events[n] == e
    requires Enabled(s, e) && t == Next(s, e) && run.states[n + 1] == t && Traced(run, n, s)
    requires s.server.conns.Keys <= t.server.conns.Keys
    requires forall k :: k in s.server.conns && DoneReading(s.server.conns[k].pc) ==> DoneReading(t.server.conns[k].pc)
    ensures ClientTraced(run, n + 1, t)
  {
    if e.Receive? && !WasTold(s.client) {
      hide Next;
      if WasTold(t.client) {
        ToldTraced(run, n, s, e.failAt);
      }
    } else {
      ToldIsOver(s, e);
      hide Next;
      if WasTold(s.client) {
        ClientStays(run, n, s, t);
      }
    }
  }

  lemma NextTraced(run: Run, n: nat)
    requires n < |run.events| && run.StepAt(n) && Traced(run, n, run.states[n])
    requires run.states[n].server.ring.Total() == |run.states[n].server.history|
    ensures Traced(run, n + 1, run.states[n + 1])
  {
    var s, t, e := run.states[n], run.states[n + 1], run.events[n];
    hide ClientTraced, ConnTraced, StepConn, StepEnabled;
    if e.Serve? {
      if e.step.Read? {
        assert LastReadAt(run, n + 1, e.id, s.server.ring.Total(), n);
      }
      hide LastRead;
      ServeTraced(run, n, s.server, e.id, e.step);
    } else {
      OthersTraced(run, n, s, e);
    }
    hide LastRead;
    NextClientTraced(run, n, s, t, e);
  }

  lemma TotalAlways(cap: nat, notice: Wording, run: Run, k: nat)
    requires run.Valid(cap, notice) && k < |run.states|
    ensures run.states[k].server.ring.Total() == |run.states[k].server.history|
  {
    Replay.InvAlways(cap, notice, run, k);
    AppendRefines(run.states[k].server.history, run.states[k].server.ring.cap, []);
  }

  lemma StartTraced(cap: nat, notice: Wording, run: Run)
    requires run.Valid(cap, notice)
    ensures Traced(run, 0, run.states[0])
  {
  }

  lemma {:induction false} TracedAlways(cap: nat, notice: Wording, run: Run, k: nat)
    requires run.Valid(cap, notice) && k < |run.states|
    ensures Traced(run, k, run.states[k])
  {
    if k == 0 {
      StartTraced(cap, notice, run);
    } else {
      hide *;
      TracedAlways(cap, notice, run, k - 1);
      StepOf(cap, notice, run, k);
      TotalAlways(cap, notice, run, k - 1);
      NextTraced(run, k - 1);
    }
  }

  lemma HistoryStep(s: State, e: Event)
    requires Enabled(s, e)
    ensures |s.server.history| <= |Next(s, e).server.history|
    ensures |s.server.history| == |Next(s, e).server.history| <==> !e.Produce?
  {
  }

  /** The history has the length it had after `j` steps exactly when nothing was appended since. */
  lemma {:induction false} UnchangedSince(cap: nat, notice: Wording, run: Run, j: nat, k: nat)
    requires run.Valid(cap, notice) && j <= k < |run.states|
    ensures var before, now := |run.states[j].server.history|, |run.states[k].server.history|;
      before <= now && (before == now <==> forall i :: j <= i < k ==> !run.events[i].Produce?)
    decreases k
  {
    if j < k {
      UnchangedSince(cap, notice, run, j, k - 1);
      assert run.StepAt(k - 1);
      HistoryStep(run.states[k - 1], run.events[k - 1]);
    }
  }

  /** A client that is told the session ended took that from some connection, and it has everything the
      session ever output exactly when the PTY reader appended nothing after that connection's last read. */
  lemma EndedExactly(cap: nat, notice: Wording, run: Run, k: nat, total: nat, drained: bool)
    returns (id: nat, i: nat, j: nat)
    requires run.Valid(cap, notice) && k < |run.states|
    requires run.states[k].client.phase == Over(SessionEnded(total, drained))
    ensures i < k && TookEnded(run, run.states[k].client.phase, id, i)
    ensures LastReadAt(run, k, id, total, j)
    ensures var s := run.states[k];
      s.client.received == |s.server.history| <==> forall n :: j <= n < k ==> !run.events[n].Produce?
  {
    TracedAlways(cap, notice, run, k);
    Replay.EndedIsComplete(cap, notice, run, k, total, drained);
    id, i :| ToldBy(run, k, run.states[k], total, id, i);
    j :| LastReadAt(run, k, id, total, j);
    UnchangedSince(cap, notice, run, j, k);
  }

  // Without that the promise fails: output appended between the two steps is never delivered.

  /** `s` with one connection, the client's. */
  function Solo(s: State, c: Conn, phase: Phase): State {
    State(s.server.(conns := map[0 := c]), s.client.(phase := phase))
  }

  /** The server task of that connection takes a step. */
  lemma Serves(cap: nat, notice: Wording, run: Run, s: State, c: Conn, phase: Phase, step: Step) returns (run': Run)
    requires run.Valid(cap, notice) && run.Last() == Solo(s, c, phase)
    requires StepEnabled(c, step) && !step.Enter? && !step.Activate? && !step.LeaveStore?
    ensures run'.Valid(cap, notice) && run'.Last() == Solo(s, StepConn(s.server, c, step), phase)
  {
    Extend(cap, notice, run, Serve(0, step));
    run' := run.Then(Serve(0, step));
    var c' := StepConn(s.server, c, step);
    assert StepConn(Solo(s, c, phase).server, c, step) == c';
    assert map[0 := c][0 := c'] == map[0 := c'];
  }

  /** That connection's client takes its next message. */
  lemma Takes(cap: nat, notice: Wording, run: Run, s: State, c: Conn, m: Message, phase: Phase, phase': Phase)
    returns (run': Run)
    requires run.Valid(cap, notice) && run.Last() == Solo(s, c.(queue := [m]), phase)
    requires Linked(phase) && phase.id == 0 && Deliver(s.client.(phase := phase), m, None) == s.client.(phase := phase')
    ensures run'.Valid(cap, notice)
    ensures run'.Last() ==
      Solo(s, c.(queue := [], helloed := c.helloed || (phase.AwaitReply? && phase'.AwaitHello?)), phase')
  {
    Extend(cap, notice, run, Receive(None));
    run' := run.Then(Receive(None));
    assert [m][1..] == [];
    var c' := c.(queue := [], helloed := c.helloed || (phase.AwaitReply? && phase'.AwaitHello?));
    assert map[0 := c.(queue := [m])][0 := c'] == map[0 := c'];
  }

  /** A client connects to a fresh session and its handshake completes. */
  lemma Connects(cap: nat, notice: Wording) returns (run: Run)
    ensures run.Valid(cap, notice)
    ensures run.Last() == Solo(Init(cap, notice), NewConn(0).(pc := Authed, helloed := true), Streaming(0))
  {
    var s, c := Init(cap, notice), NewConn(0);
    Extend(cap, notice, Start(cap, notice), Dial(0));
    run := Start(cap, notice).Then(Dial(0));
    assert map[][0 := c] == map[0 := c];
    run := Serves(cap, notice, run, s, c, AwaitReply(0), Lookup);
    run := Serves(cap, notice, run, s, c.(pc := Found), AwaitReply(0), Reply);
    assert [] + [ReplyOk(0)] == [ReplyOk(0)];
    run := Takes(cap, notice, run, s, c.(pc := Replied), ReplyOk(0), AwaitReply(0), AwaitHello(0));
    run := Serves(cap, notice, run, s, c.(pc := Replied, helloed := true), AwaitHello(0), Auth);
    assert [] + [Record(Frames.Hello)] == [Record(Frames.Hello)];
    c := c.(pc := Authed, helloed := true);
    run := Takes(cap, notice, run, s, c, Record(Frames.Hello), AwaitHello(0), Streaming(0));
  }

  lemma SoloEnter(s: State, c: Conn, phase: Phase)
    requires c.pc == Authed
    ensures Next(Solo(s, c, phase), Serve(0, Enter)) ==
      Solo(s.(server := s.server.(active := s.server.active + 1)),
        c.(pc := Entering, epoch := s.server.active + 1), phase)
  {
    var c' := c.(pc := Entering, epoch := s.server.active + 1);
    assert map[0 := c][0 := c'] == map[0 := c'];
  }

  lemma SoloActivate(s: State, c: Conn, phase: Phase)
    requires c.pc == Entering && c.epoch == s.server.active
    ensures Next(Solo(s, c, phase), Serve(0, Activate)) ==
      Solo(s.(server := s.server.(connected := true)), c.(pc := Top), phase)
  {
    assert map[0 := c][0 := c.(pc := Top)] == map[0 := c.(pc := Top)];
  }

  /** That connection becomes the active one. */
  lemma Activates(cap: nat, notice: Wording, run: Run, s: State, c: Conn, phase: Phase) returns (run': Run)
    requires run.Valid(cap, notice) && run.Last() == Solo(s, c, phase) && c.pc == Authed
    ensures var e := s.server.active + 1;
      var s' := s.(server := s.server.(active := e, connected := true));
      run'.Valid(cap, notice) && run'.Last() == Solo(s', c.(pc := Top, epoch := e), phase)
  {
    var s1 := s.(server := s.server.(active := s.server.active + 1));
    var c1 := c.(pc := Entering, epoch := s.server.active + 1);
    SoloEnter(s, c, phase);
    Extend(cap, notice, run, Serve(0, Enter));
    run' := run.Then(Serve(0, Enter));
    SoloActivate(s1, c1, phase);
    Extend(cap, notice, run', Serve(0, Activate));
    run' := run'.Then(Serve(0, Activate));
  }

  /** The reader appends and notifies. */
  lemma Appends(cap: nat, notice: Wording, run: Run, s: State, c: Conn, phase: Phase, bytes: seq<byte>)
    returns (run': Run)
    requires run.Valid(cap, notice) && run.Last() == Solo(s, c, phase)
    requires s.server.reader == Running && bytes != [] && s.server.ring.Total() + |bytes| < U64_LIMIT
    ensures var s' := s.(server := s.server.(
        history := s.server.history + bytes, ring := s.server.ring.Append(bytes)));
      run'.Valid(cap, notice) && run'.Last() == Solo(s', Awaken(c), phase)
  {
    hide StepConn, StepEnabled, Ring.Append, Deliver;
    Extend(cap, notice, run, Produce(bytes));
    run' := run.Then(Produce(bytes));
    Extend(cap, notice, run', Notify(Reader));
    run' := run'.Then(Notify(Reader));
    var conns := map[0 := c];
    assert (map id | id in conns :: Awaken(conns[id])) == map[0 := Awaken(c)];
  }

  /** Output that lands between the writer's last read and its look at the ended flag: the reader
      appends it, notifies, and marks the session ended. */
  lemma AppendsAndEnds(cap: nat, notice: Wording, run: Run, s: State, c: Conn, phase: Phase, bytes: seq<byte>)
    returns (run': Run)
    requires run.Valid(cap, notice) && run.Last() == Solo(s, c, phase)
    requires s.server.reader == Running && !s.server.ended && bytes != [] && s.server.ring.Total() + |bytes| < U64_LIMIT
    ensures var s' := s.(server := s.server.(
        history := s.server.history + bytes, ring := s.server.ring.Append(bytes), reader := Swapped, ended := true));
      run'.Valid(cap, notice) && run'.Last() == Solo(s', Awaken(c), phase)
  {
    run' := Appends(cap, notice, run, s, c, phase, bytes);
    hide StepConn, StepEnabled, Ring.Append, Deliver;
    Extend(cap, notice, run', Swap(Reader));
    run' := run'.Then(Swap(Reader));
  }

  /** A run in which the client is told the session ended while a byte of its output is still in the
      ring: the byte came after the writer's last read and before its look at the ended flag. */
  lemma LateOutputIsLost(cap: nat, notice: Wording) returns (run: Run)
    requires cap > 0
    ensures run.Valid(cap, notice)
    ensures var s := run.Last();
      && s.client.phase == Over(SessionEnded(0, false)) && s.client.received == 0
      && s.server.ring.data == s.server.history == [7] && s.client.terminal == []
  {
    run := Connects(cap, notice);
    var s, phase := Init(cap, notice), Streaming(0);
    var c := NewConn(0).(pc := Authed, helloed := true);
    run := Activates(cap, notice, run, s, c, phase);
    s := s.(server := s.server.(active := 1, connected := true));
    c := c.(pc := Top, epoch := 1);
    run := Serves(cap, notice, run, s, c, phase, Check);
    run := Serves(cap, notice, run, s, c.(pc := Current), phase, Register);
    c := c.(pc := Registered, waiter := Some(false));
    run := Serves(cap, notice, run, s, c, phase, Read);
    c := c.(pc := Checking);
    run := AppendsAndEnds(cap, notice, run, s, c, phase, [7]);
    s := s.(server := s.server.(
        history := [] + [7], ring := Ring([], 0, cap).Append([7]), reader := Swapped, ended := true));
    c := Awaken(c);
    run := Serves(cap, notice, run, s, c, phase, CheckEnded);
    run := Serves(cap, notice, run, s, c.(pc := Finishing), phase, Finish(true));
    assert [] + [Final(0, false)] == [Final(0, false)];
    c := c.(pc := Exiting, waiter := None);
    run := Takes(cap, notice, run, s, c, Final(0, false), phase, Over(SessionEnded(0, false)));
  }
}
