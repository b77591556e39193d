/** What becomes of a client whose connection broke: it recovers exactly while the session lives. */
module Recovery {
  import opened Bytes
  import opened ReplayRing
  import opened ClientOutput
  import opened Protocol
  import Frames
  import Replay
  import CatchUp
  import EndOfSession

  /** `run'` is a continuation of `run`. */
  predicate GoesOn(run: Run, run': Run) {
    run.events <= run'.events && run.states <= run'.states
  }

  /** It is one at whose end the client has the whole history. */
  ghost predicate Recovers(cap: nat, notice: Wording, run: Run, run': Run) {
    && run'.Valid(cap, notice) && GoesOn(run, run')
    && run'.Last().client.received == |run'.Last().server.history|
  }

  // While the session lives, the client reconnects and catches up

  /** The client reconnects over a connection that has just reached station `pc`, with `queue` in flight. */
  predicate Redialled(s: State, t: State, id: nat, phase: Phase, pc: Pc, queue: seq<Message>, helloed: bool) {
    && t.client == s.client.(phase := phase) && id in t.server.conns
    && t.server == s.server.(conns := s.server.conns[id := t.server.conns[id]])
    && t.server.conns[id] == NewConn(s.client.received).(pc := pc, queue := queue, helloed := helloed)
  }

  lemma CanDial(s: State, id: nat)
    requires s.client.phase == Offline && id !in s.server.conns
    ensures Enabled(s, Dial(id))
  {
  }

  lemma Dials(s: State, id: nat)
    requires Enabled(s, Dial(id))
    ensures Redialled(s, Next(s, Dial(id)), id, AwaitReply(id), Hailed, [], false)
  {
  }

  /** The server's side of the handshake, step by step. */
  lemma Serves(s: State, t: State, id: nat, phase: Phase, pc: Pc, queue: seq<Message>, helloed: bool, step: Step)
    requires Redialled(s, t, id, phase, pc, queue, helloed) && !s.server.ended
    requires s.client.received <= s.server.ring.Total()
    requires
      || (pc == Hailed && step == Lookup)
      || (pc == Found && step == Reply)
      || (pc == Replied && helloed && step == Auth)
    ensures Enabled(t, Serve(id, step))
    ensures var pc' := if step == Lookup then Found else if step == Reply then Replied else Authed;
      var queue' :=
        if step == Lookup then queue
        else queue + [if step == Reply then ReplyOk(s.server.ring.Total()) else Record(Frames.Hello)];
      Redialled(s, Next(t, Serve(id, step)), id, phase, pc', queue', helloed)
  {
    var t' := Next(t, Serve(id, step));
    assert t'.server.conns == s.server.conns[id := t'.server.conns[id]];
  }

  /** The client's side of it. */
  lemma Takes(s: State, t: State, id: nat, phase: Phase, pc: Pc, m: Message, helloed: bool)
    requires Redialled(s, t, id, phase, pc, [m], helloed)
    requires (phase == AwaitReply(id) && m.ReplyOk? && s.client.received <= m.total)
          || (phase == AwaitHello(id) && m == Record(Frames.Hello) && helloed)
    ensures Enabled(t, Receive(None))
    ensures Redialled(s, Next(t, Receive(None)), id, if phase == AwaitReply(id) then AwaitHello(id) else Streaming(id),
              pc, [], true)
  {
    var t' := Next(t, Receive(None));
    assert [m][1..] == [];
    assert t'.server.conns == s.server.conns[id := t'.server.conns[id]];
  }

  lemma Extends(cap: nat, notice: Wording, run: Run, run': Run, e: Event) returns (more: Run)
    requires run'.Valid(cap, notice) && Enabled(run'.Last(), e)
    requires GoesOn(run, run')
    ensures more.Valid(cap, notice) && more.states != [] && more.Last() == Next(run'.Last(), e) && GoesOn(run, more)
  {
    hide Next, Enabled;
    Extend(cap, notice, run', e);
    more := run'.Then(e);
  }

  lemma Committed(cap: nat, notice: Wording, run: Run)
    requires run.Valid(cap, notice)
    ensures run.states != []
    ensures run.Last().client.received <= run.Last().server.ring.Total() == |run.Last().server.history|
  {
    Replay.InvAlways(cap, notice, run, |run.states| - 1);
    AppendRefines(run.Last().server.history, run.Last().server.ring.cap, []);
  }

  lemma ServesOn(cap: nat, notice: Wording, run: Run, run': Run, id: nat, phase: Phase, pc: Pc, helloed: bool,
                 step: Step)
    returns (more: Run)
    requires run.Valid(cap, notice) && run'.Valid(cap, notice) && GoesOn(run, run') && !run.Last().server.ended
    requires Redialled(run.Last(), run'.Last(), id, phase, pc, [], helloed)
    requires
      || (pc == Hailed && step == Lookup)
      || (pc == Found && step == Reply)
      || (pc == Replied && helloed && step == Auth)
    ensures more.Valid(cap, notice) && more.states != [] && GoesOn(run, more)
    ensures var pc' := if step == Lookup then Found else if step == Reply then Replied else Authed;
      var queue :=
        if step == Lookup then []
        else if step == Reply then [ReplyOk(run.Last().server.ring.Total())] else [Record(Frames.Hello)];
      Redialled(run.Last(), more.Last(), id, phase, pc', queue, helloed)
  {
    hide *;
    Committed(cap, notice, run);
    Committed(cap, notice, run');
    Serves(run.Last(), run'.Last(), id, phase, pc, [], helloed, step);
    more := Extends(cap, notice, run, run', Serve(id, step));
    var m := if step == Reply then ReplyOk(run.Last().server.ring.Total()) else Record(Frames.Hello);
    assert [] + [m] == [m];
  }

  lemma Itself(run: Run)
    ensures GoesOn(run, run)
  {
  }

  /** A client that is offline dials and is welcomed by a session that lives. */
  lemma Welcomed(cap: nat, notice: Wording, run: Run, id: nat) returns (run': Run)
    requires run.Valid(cap, notice) && run.Last().client.phase == Offline && !run.Last().server.ended
    requires id !in run.Last().server.conns
    ensures run'.Valid(cap, notice) && GoesOn(run, run')
    ensures Redialled(run.Last(), run'.Last(), id, AwaitHello(id), Replied, [], true)
  {
    hide *;
    Committed(cap, notice, run);
    var s := run.Last();
    CanDial(s, id);
    Dials(s, id);
    Itself(run);
    run' := Extends(cap, notice, run, run, Dial(id));
    run' := ServesOn(cap, notice, run, run', id, AwaitReply(id), Hailed, false, Lookup);
    run' := ServesOn(cap, notice, run, run', id, AwaitReply(id), Found, false, Reply);
    Takes(s, run'.Last(), id, AwaitReply(id), Replied, ReplyOk(s.server.ring.Total()), false);
    run' := Extends(cap, notice, run, run', Receive(None));
  }

  /** And completes the handshake. */
  lemma Reconnects(cap: nat, notice: Wording, run: Run, id: nat) returns (run': Run)
    requires run.Valid(cap, notice) && run.Last().client.phase == Offline && !run.Last().server.ended
    requires id !in run.Last().server.conns
    ensures run'.Valid(cap, notice) && GoesOn(run, run')
    ensures Redialled(run.Last(), run'.Last(), id, Streaming(id), Authed, [], true)
  {
    hide *;
    Committed(cap, notice, run);
    run' := Welcomed(cap, notice, run, id);
    run' := ServesOn(cap, notice, run, run', id, AwaitHello(id), Replied, true, Auth);
    Takes(run.Last(), run'.Last(), id, AwaitHello(id), Authed, Record(Frames.Hello), true);
    run' := Extends(cap, notice, run, run', Receive(None));
  }

  /** Some connection number is unused. */
  lemma {:induction false} Unused(used: set<nat>) returns (id: nat)
    ensures forall k :: k in used ==> k < id
  {
    if used == {} {
      id := 0;
    } else {
      var k :| k in used;
      var above := Unused(used - {k});
      id := if above > k then above else k + 1;
      assert used == (used - {k}) + {k};
    }
  }

  lemma LiveRecovers(cap: nat, notice: Wording, run: Run) returns (run': Run)
    requires run.Valid(cap, notice) && run.Last().client.phase == Offline && !run.Last().server.ended
    ensures Recovers(cap, notice, run, run')
    ensures run'.Last().server.history == run.Last().server.history
  {
    var id := Unused(run.Last().server.conns.Keys);
    var connected := Reconnects(cap, notice, run, id);
    run' := CatchUp.CatchesUp(cap, notice, connected, id);
  }

  // Once it has ended, every new connection is refused

  predicate Refused(c: Conn) {
    (c.pc == Hailed || c.pc == Gone) && forall i :: 0 <= i < |c.queue| ==> c.queue[i] == ReplyNoSession
  }

  /** The client gets no further than a refusal. */
  ghost predicate ShutOut(s: State) {
    && s.server.ended && !s.client.phase.AwaitHello? && !s.client.phase.Streaming?
    && (s.client.phase.AwaitReply? ==>
        && s.client.phase.id in s.server.conns
        && Refused(s.server.conns[s.client.phase.id]))
  }

  lemma RefusedStep(s: Server, c: Conn, step: Step)
    requires s.ended && Refused(c) && StepEnabled(c, step)
    ensures Refused(StepConn(s, c, step))
  {
  }

  lemma ServeShutOut(s: State, id: nat, step: Step)
    requires ShutOut(s) && Enabled(s, Serve(id, step))
    ensures ShutOut(Next(s, Serve(id, step))) && Next(s, Serve(id, step)).client == s.client
  {
    if s.client.phase.AwaitReply? && s.client.phase.id == id {
      RefusedStep(s.server, s.server.conns[id], step);
    }
    hide StepConn;
  }

  lemma NotifyShutOut(s: State, who: Who)
    requires ShutOut(s) && Enabled(s, Notify(who))
    ensures ShutOut(Next(s, Notify(who))) && Next(s, Notify(who)).client == s.client
  {
    var t := Next(s, Notify(who));
    if s.client.phase.AwaitReply? {
      assert t.server.conns[s.client.phase.id] == Awaken(s.server.conns[s.client.phase.id]);
    }
  }

  lemma NextShutOut(s: State, e: Event)
    requires ShutOut(s) && Enabled(s, e)
    ensures ShutOut(Next(s, e)) && Next(s, e).client.received == s.client.received
  {
    if e.Serve? {
      ServeShutOut(s, e.id, e.step);
    } else if e.Notify? {
      NotifyShutOut(s, e.who);
    } else {
      hide StepConn, StepEnabled, Ring.Append;
    }
  }

  lemma {:induction false} StaysShutOut(cap: nat, notice: Wording, run: Run, j: nat, k: nat)
    requires run.Valid(cap, notice) && j <= k < |run.states| && ShutOut(run.states[j])
    ensures ShutOut(run.states[k]) && run.states[k].client.received == run.states[j].client.received
    decreases k
  {
    if j < k {
      hide *;
      StaysShutOut(cap, notice, run, j, k - 1);
      StepOf(cap, notice, run, k);
      NextShutOut(run.states[k - 1], run.events[k - 1]);
    }
  }

  /** A client that is offline can still come to have the whole output if and only if the session lives or the
      client already has everything. */
  lemma RecoversExactly(cap: nat, notice: Wording, run: Run)
    requires run.Valid(cap, notice) && run.Last().client.phase == Offline
    ensures var s := run.Last();
      (exists run': Run :: Recovers(cap, notice, run, run')) <==>
        !s.server.ended || s.client.received == |s.server.history|
  {
    var s, j := run.Last(), |run.states| - 1;
    if !s.server.ended {
      var run' := LiveRecovers(cap, notice, run);
    } else if s.client.received == |s.server.history| {
      assert Recovers(cap, notice, run, run);
    }
    forall run': Run | Recovers(cap, notice, run, run')
      ensures !s.server.ended || s.client.received == |s.server.history|
    {
      if s.server.ended {
        assert run'.states[j] == s;
        Committed(cap, notice, run);
        StaysShutOut(cap, notice, run', j, |run'.states| - 1);
        Replay.RunGrows(cap, notice, run', j, |run'.states| - 1);
      }
    }
  }

  /** A run that loses output the ring still holds: the connection breaks, a byte is output, the session ends, and
      the client that comes back is told that there is no such session. */
  lemma LostInTheBlip(cap: nat, notice: Wording) returns (run: Run)
    requires cap > 0
    ensures run.Valid(cap, notice)
    ensures var s := run.Last();
      && s.client.phase == Over(NoSession) && s.client.received == 0 && s.client.established
      && s.server.ring.data == s.server.history == [7] && s.client.terminal == []
  {
    run := EndOfSession.Connects(cap, notice);
    var c := NewConn(0).(pc := Authed, helloed := true);
    Extend(cap, notice, run, Drop);
    run := run.Then(Drop);
    var s := Init(cap, notice);
    s := s.(client := s.client.(established := true));
    run := EndOfSession.AppendsAndEnds(cap, notice, run, s, c, Offline, [7]);
    Extend(cap, notice, run, Dial(1));
    run := run.Then(Dial(1));
    Extend(cap, notice, run, Serve(1, Lookup));
    run := run.Then(Serve(1, Lookup));
    assert [] + [ReplyNoSession] == [ReplyNoSession];
    assert run.Last().server.conns[1].queue == [ReplyNoSession];
    Extend(cap, notice, run, Receive(None));
    run := run.Then(Receive(None));
  }
}
