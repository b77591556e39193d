/** Delivery can always be completed: no state the protocol reaches leaves a connected client short of output. */
module CatchUp {
  import opened Bytes
  import opened ReplayRing
  import opened ClientOutput
  import opened Protocol
  import opened Replay
  import Wakeup

  /** The writer is past its last read, and output came after it. */
  predicate TooLate(c: Conn, s: Server) {
    (c.pc == Finishing || (c.pc == Checking && s.ended)) && c.cursor != |s.history|
  }

  /** The client streams on connection `id`, which the network carries and which is the session's active one,
      or about to be, and whose writer will still look at all of the output. */
  predicate Connected(s: State, id: nat) {
    && s.client.phase == Streaming(id) && id in s.server.conns
    && var c := s.server.conns[id];
    && !c.cut && Writing(c.pc) && (c.pc == Authed || c.epoch == s.server.active) && !TooLate(c, s.server)
  }

  /** The program's own steps on that connection: no failure, no timer, no new output. */
  predicate OwnStep(e: Event, id: nat) {
    (e.Serve? && e.id == id && Wakeup.Forward(e.step)) || e == Receive(None) || e.Notify?
  }

  // A measure every such step decreases

  function Unsent(s: State, id: nat): int
    requires Connected(s, id)
  {
    |s.server.history| - s.server.conns[id].sent
  }

  /** How far the writer is from its next write. */
  function Distance(pc: Pc): nat {
    match pc
    case Authed => 8
    case Entering => 7
    case Checking => 6
    case Parked => 5
    case Top => 4
    case Current => 3
    case Registered => 2
    case _ => 1
  }

  function Owed(p: Producer): nat {
    if p == Dirty || p == Swapped then 1 else 0
  }

  function Notices(s: Server): nat {
    Owed(s.reader) + Owed(s.reaper)
  }

  /** `t` is nearer to delivery than `s`, with the same history. */
  predicate Nearer(s: State, t: State, id: nat)
    requires Connected(s, id) && Connected(t, id)
  {
    && t.server.history == s.server.history && t.server.ended == s.server.ended
    && var c, d := s.server.conns[id], t.server.conns[id];
    || Unsent(t, id) < Unsent(s, id)
    || (Unsent(t, id) == Unsent(s, id) && Distance(d.pc) < Distance(c.pc))
    || (Unsent(t, id) == Unsent(s, id) && d.pc == c.pc && Notices(t.server) < Notices(s.server))
    || (
      && Unsent(t, id) == Unsent(s, id) && d.pc == c.pc && Notices(t.server) == Notices(s.server)
      && |d.queue| < |c.queue|)
  }

  /** What a connected client takes next is a frame it can show or a heartbeat: it keeps streaming. */
  lemma KeepsStreaming(c: Client, conn: Conn, history: seq<byte>, start: nat)
    requires c.phase.Streaming? && LinkOk(c.phase, conn, c.received, history, start) && |history| < U64_LIMIT
    requires conn.queue != [] && Writing(conn.pc)
    ensures Deliver(c, conn.queue[0], None).phase == c.phase
  {
    assert StreamOk(conn, conn.queue, c.received, history, start);
    assert !conn.queue[0].Final?;
  }

  lemma InvFacts(s: State, id: nat)
    requires Inv(s) && id in s.server.conns
    ensures s.server.ring == RingOf(s.server.history, s.server.ring.cap) && |s.server.history| < U64_LIMIT
    ensures ConnOk(s.server.conns[id], s.server.history, s.server.ring.start)
  {
    AppendRefines(s.server.history, s.server.ring.cap, []);
  }

  lemma LinkFacts(s: State, id: nat)
    requires Inv(s) && Connected(s, id)
    ensures LinkOk(s.client.phase, s.server.conns[id], s.client.received, s.server.history, s.server.ring.start)
  {
  }

  /** The head of the queue leaves it, and nothing else of the session changes. */
  lemma TakesHead(s: State, id: nat)
    requires s.client.phase == Streaming(id) && id in s.server.conns && s.server.conns[id].queue != []
    ensures Enabled(s, Receive(None)) && OwnStep(Receive(None), id)
    ensures var c, t := s.server.conns[id], Next(s, Receive(None));
      && t.client == Deliver(s.client, c.queue[0], None)
      && t.server == s.server.(conns := s.server.conns[id := c.(queue := c.queue[1..])])
  {
    hide Deliver, ServerNext, StepEnabled;
  }

  /** A frame in flight is delivered. */
  lemma Receives(s: State, id: nat)
    requires Inv(s) && Connected(s, id) && s.server.conns[id].queue != []
    ensures Enabled(s, Receive(None)) && OwnStep(Receive(None), id)
    ensures Connected(Next(s, Receive(None)), id) && Nearer(s, Next(s, Receive(None)), id)
  {
    InvFacts(s, id);
    LinkFacts(s, id);
    hide Inv, Next, Enabled, OwnStep, Deliver, LinkOk, ConnOk, RingOf;
    KeepsStreaming(s.client, s.server.conns[id], s.server.history, s.server.ring.start);
    TakesHead(s, id);
  }

  /** The writer's next step towards a write. */
  function Onward(pc: Pc): Step {
    match pc
    case Authed => Enter
    case Entering => Activate
    case Top => Check
    case Current => Register
    case Registered => Read
    case Checking => CheckEnded
    case Parked => Wake
    case _ => Write(true)
  }

  /** With output unsent a read finds a frame to write. */
  lemma ReadFinds(ring: Ring, history: seq<byte>, cursor: nat)
    requires ring == RingOf(history, ring.cap) && cursor < |history| < U64_LIMIT
    ensures ring.ReadFrom(cursor).1 != [] || ring.ReadFrom(cursor).0 > cursor
  {
    hide Follows, Oldest;
    ReadFollows(history, ring.cap, cursor);
  }

  /** The same of the connection alone: it comes nearer to its next write, or writes. */
  lemma StepsOnward(s: Server, c: Conn)
    requires s.ring == RingOf(s.history, s.ring.cap) && |s.history| < U64_LIMIT && ConnOk(c, s.history, s.ring.start)
    requires !c.cut && Writing(c.pc) && (c.pc == Authed || c.epoch == s.active) && !TooLate(c, s)
    requires c.sent < |s.history| && (c.pc == Parked ==> c.waiter == Some(true))
    ensures StepEnabled(c, Onward(c.pc))
    ensures var d := StepConn(s, c, Onward(c.pc));
      && !d.cut && Writing(d.pc) && d.pc != Finishing && d.pc != Checking && d.pc != Authed
      && d.epoch == (if c.pc == Authed then s.active + 1 else c.epoch)
      && (d.sent > c.sent || (d.sent == c.sent && Distance(d.pc) < Distance(c.pc)))
  {
    hide Ring.ReadFrom, RingOf;
    if c.pc == Registered {
      ReadFinds(s.ring, s.history, c.cursor);
    }
  }

  /** The step is the connection's own: of the session it moves only the epoch and the busy flag. */
  lemma OnwardMoves(s: State, id: nat)
    requires Connected(s, id) && StepEnabled(s.server.conns[id], Onward(s.server.conns[id].pc))
    ensures var c := s.server.conns[id];
      var step := Onward(c.pc);
      var t := Next(s, Serve(id, step));
      && t.client == s.client && t.server.conns == s.server.conns[id := StepConn(s.server, c, step)]
      && t.server.history == s.server.history && t.server.ended == s.server.ended
      && t.server.active == (if c.pc == Authed then s.server.active + 1 else s.server.active)
  {
    hide StepConn;
  }

  /** With output unsent a step of the writer brings it nearer. */
  lemma GoesOn(s: State, id: nat)
    requires Inv(s) && Connected(s, id) && Unsent(s, id) > 0
    requires s.server.conns[id].pc == Parked ==> s.server.conns[id].waiter == Some(true)
    ensures var e := Serve(id, Onward(s.server.conns[id].pc));
      Enabled(s, e) && OwnStep(e, id) && Connected(Next(s, e), id) && Nearer(s, Next(s, e), id)
  {
    hide Inv, ConnOk, RingOf, Ring.ReadFrom, StepConn, Next, StepEnabled;
    InvFacts(s, id);
    StepsOnward(s.server, s.server.conns[id]);
    OnwardMoves(s, id);
  }

  /** A producer's notification wakes a parked writer. */
  lemma Notifies(s: State, id: nat, who: Who)
    requires Connected(s, id) && Enabled(s, Notify(who))
    ensures Connected(Next(s, Notify(who)), id) && Nearer(s, Next(s, Notify(who)), id)
  {
    var s' := Next(s, Notify(who));
    assert s'.server.conns[id] == Awaken(s.server.conns[id]);
    assert Notices(s'.server) < Notices(s.server);
  }

  lemma CanNotify(s: State, id: nat)
    requires Wakeup.Pending(s.server)
    ensures var e := Notify(if Owed(s.server.reader) > 0 then Reader else Reaper);
      Enabled(s, e) && OwnStep(e, id)
  {
  }

  /** With nothing in flight, a client that lacks output waits for a write. */
  lemma StillUnsent(s: State, id: nat)
    requires Inv(s) && Connected(s, id) && s.client.received != |s.server.history|
    ensures id in s.server.conns
    ensures s.server.conns[id].queue == [] ==> Unsent(s, id) > 0 && s.server.conns[id].cursor <= s.server.ring.Total()
    ensures s.server.conns[id].queue == [] && s.server.conns[id].pc == Parked ==>
      s.server.conns[id].cursor < s.server.ring.Total()
  {
    AppendRefines(s.server.history, s.server.ring.cap, []);
    assert ConnOk(s.server.conns[id], s.server.history, s.server.ring.start);
  }

  /** The step to take next, if the client still lacks output. */
  lemma NextStep(cap: nat, notice: Wording, run: Run, id: nat) returns (e: Event)
    requires run.Valid(cap, notice) && Connected(run.Last(), id)
    requires run.Last().client.received != |run.Last().server.history|
    ensures Enabled(run.Last(), e) && OwnStep(e, id)
    ensures Connected(Next(run.Last(), e), id) && Nearer(run.Last(), Next(run.Last(), e), id)
  {
    hide Connected, Nearer, OwnStep, Next, Enabled, Inv;
    var s, k := run.Last(), |run.states| - 1;
    InvAlways(cap, notice, run, k);
    StillUnsent(s, id);
    if s.server.conns[id].queue != [] {
      e := Receive(None);
      Receives(s, id);
    } else if s.server.conns[id].pc != Parked || s.server.conns[id].waiter == Some(true) {
      e := Serve(id, Onward(s.server.conns[id].pc));
      GoesOn(s, id);
    } else {
      Wakeup.NoLostWakeup(cap, notice, run, k, id);
      e := Notify(if Owed(s.server.reader) > 0 then Reader else Reaper);
      CanNotify(s, id);
      Notifies(s, id, e.who);
    }
  }

  /** `run'` goes on from `run` by the program's own steps on that connection. */
  ghost predicate GoesOnFrom(run: Run, run': Run, id: nat) {
    && run.events <= run'.events && run.states <= run'.states
    && forall i :: |run.events| <= i < |run'.events| ==> OwnStep(run'.events[i], id)
  }

  lemma OneMore(run: Run, e: Event, run': Run, id: nat)
    requires run.states != [] && Enabled(run.Last(), e) && OwnStep(e, id) && GoesOnFrom(run.Then(e), run', id)
    ensures GoesOnFrom(run, run', id)
  {
    assert run'.events[|run.events|] == run.Then(e).events[|run.events|];
  }

  lemma UnsentIsNat(s: State, id: nat)
    requires Inv(s) && Connected(s, id)
    ensures Unsent(s, id) >= 0
  {
    assert ConnOk(s.server.conns[id], s.server.history, s.server.ring.start);
  }

  /** From every state of every run in which the client streams on the session's active connection, finitely many
      of the program's own steps make it commit the whole history. */
  lemma {:induction false} CatchesUp(cap: nat, notice: Wording, run: Run, id: nat) returns (run': Run)
    requires run.Valid(cap, notice) && Connected(run.Last(), id)
    ensures run'.Valid(cap, notice) && GoesOnFrom(run, run', id) && Connected(run'.Last(), id)
    ensures run'.Last().server.history == run.Last().server.history
    ensures run'.Last().server.ended == run.Last().server.ended
    ensures run'.Last().client.received == |run'.Last().server.history|
    decreases
      Unsent(run.Last(), id), Distance(run.Last().server.conns[id].pc),
      Notices(run.Last().server), |run.Last().server.conns[id].queue|
  {
    if run.Last().client.received == |run.Last().server.history| {
      run' := run;
    } else {
      var e := NextStep(cap, notice, run, id);
      Extend(cap, notice, run, e);
      InvAlways(cap, notice, run, |run.states| - 1);
      UnsentIsNat(run.Last(), id);
      hide Next, Enabled, Connected, OwnStep, Inv;
      run' := CatchesUp(cap, notice, run.Then(e), id);
      OneMore(run, e, run', id);
    }
  }

  // The end of the session

  /** How far a writer with nothing to send is from saying that the session ended. */
  function DistanceToEnd(pc: Pc): nat {
    match pc
    case Authed => 8
    case Entering => 7
    case Parked => 6
    case Top => 5
    case Current => 4
    case Registered => 3
    case Checking => 2
    case Finishing => 1
    case _ => 0
  }

  /** Connected, with the whole history committed and the session ended. */
  predicate Done(s: State, id: nat) {
    Connected(s, id) && s.server.ended && s.client.received == |s.server.history|
  }

  /** `t` is nearer to being told than `s`. */
  predicate Closer(s: State, t: State, id: nat)
    requires Done(s, id) && Done(t, id)
  {
    && t.server.history == s.server.history
    && var c, d := s.server.conns[id], t.server.conns[id];
    || DistanceToEnd(d.pc) < DistanceToEnd(c.pc)
    || (d.pc == c.pc && Notices(t.server) < Notices(s.server))
    || (d.pc == c.pc && Notices(t.server) == Notices(s.server) && |d.queue| < |c.queue|)
  }

  /** A caught-up writer finds nothing to read. */
  lemma ReadFindsNothing(ring: Ring, history: seq<byte>, cursor: nat)
    requires ring == RingOf(history, ring.cap) && cursor == |history|
    ensures ring.ReadFrom(cursor) == (cursor, [])
  {
  }

  lemma StepsToEnd(s: Server, c: Conn)
    requires s.ring == RingOf(s.history, s.ring.cap) && s.ended && c.cursor == |s.history|
    requires !c.cut && Writing(c.pc) && !c.pc.Emitting? && c.pc != Finishing && (c.pc == Authed || c.epoch == s.active)
    requires c.pc == Parked ==> c.waiter == Some(true)
    ensures StepEnabled(c, Onward(c.pc))
    ensures var d := StepConn(s, c, Onward(c.pc));
      && !d.cut && Writing(d.pc) && !d.pc.Emitting? && d.pc != Authed && d.cursor == c.cursor
      && d.epoch == (if c.pc == Authed then s.active + 1 else c.epoch)
      && DistanceToEnd(d.pc) < DistanceToEnd(c.pc)
  {
    hide Ring.ReadFrom, RingOf;
    if c.pc == Registered {
      ReadFindsNothing(s.ring, s.history, c.cursor);
    }
  }

  /** With nothing in flight, what is committed is what the connection has sent, and its writer is caught up. */
  lemma CaughtUp(s: State, id: nat)
    requires Inv(s) && Done(s, id) && s.server.conns[id].queue == []
    ensures var c := s.server.conns[id];
      c.cursor == |s.server.history| && !c.pc.Emitting? && (c.pc == Finishing ==> c.seen == |s.server.history|)
  {
    var c := s.server.conns[id];
    assert ConnOk(c, s.server.history, s.server.ring.start);
    assert StreamOk(c, c.queue, s.client.received, s.server.history, s.server.ring.start);
  }

  lemma Concludes(s: State, id: nat)
    requires Inv(s) && Done(s, id) && s.server.conns[id].queue == [] && s.server.conns[id].pc != Finishing
    requires s.server.conns[id].pc == Parked ==> s.server.conns[id].waiter == Some(true)
    ensures var e := Serve(id, Onward(s.server.conns[id].pc));
      Enabled(s, e) && OwnStep(e, id) && Done(Next(s, e), id) && Closer(s, Next(s, e), id)
  {
    hide Inv, ConnOk, RingOf, Ring.ReadFrom, StepConn, Next, StepEnabled;
    InvFacts(s, id);
    CaughtUp(s, id);
    StepsToEnd(s.server, s.server.conns[id]);
    OnwardMoves(s, id);
  }

  lemma StaysCommitted(c: Client, conn: Conn, history: seq<byte>, start: nat)
    requires c.phase.Streaming? && LinkOk(c.phase, conn, c.received, history, start) && |history| < U64_LIMIT
    requires conn.queue != [] && Writing(conn.pc) && c.received == |history|
    ensures Deliver(c, conn.queue[0], None).received == c.received
  {
    assert StreamOk(conn, conn.queue, c.received, history, start);
    assert !conn.queue[0].Final?;
  }

  /** What is still in flight to a caught-up client are heartbeats. */
  lemma TakesHeartbeat(s: State, id: nat)
    requires Inv(s) && Done(s, id) && s.server.conns[id].queue != []
    ensures Enabled(s, Receive(None)) && OwnStep(Receive(None), id)
    ensures Done(Next(s, Receive(None)), id) && Closer(s, Next(s, Receive(None)), id)
  {
    InvFacts(s, id);
    LinkFacts(s, id);
    hide Inv, Next, Enabled, OwnStep, Deliver, LinkOk, ConnOk, RingOf;
    Receives(s, id);
    StaysCommitted(s.client, s.server.conns[id], s.server.history, s.server.ring.start);
    TakesHead(s, id);
  }

  lemma NotifiesEnd(s: State, id: nat, who: Who)
    requires Done(s, id) && Enabled(s, Notify(who))
    ensures Done(Next(s, Notify(who)), id) && Closer(s, Next(s, Notify(who)), id)
  {
    var s' := Next(s, Notify(who));
    assert s'.server.conns[id] == Awaken(s.server.conns[id]);
    assert Notices(s'.server) < Notices(s.server);
  }

  lemma EndedHere(s: State, id: nat)
    requires Done(s, id)
    ensures s.server.ended
  {
  }

  /** The step to take next, until the writer is about to say that the session ended. */
  lemma StepToEnd(cap: nat, notice: Wording, run: Run, id: nat) returns (e: Event)
    requires run.Valid(cap, notice) && Done(run.Last(), id)
    requires run.Last().server.conns[id].pc != Finishing || run.Last().server.conns[id].queue != []
    ensures Enabled(run.Last(), e) && OwnStep(e, id)
    ensures Done(Next(run.Last(), e), id) && Closer(run.Last(), Next(run.Last(), e), id)
  {
    var s, k := run.Last(), |run.states| - 1;
    InvAlways(cap, notice, run, k);
    assert id in s.server.conns;
    hide Done, Connected, Closer, OwnStep, Next, Enabled, Inv;
    if s.server.conns[id].queue != [] {
      e := Receive(None);
      TakesHeartbeat(s, id);
    } else if s.server.conns[id].pc != Parked || s.server.conns[id].waiter == Some(true) {
      e := Serve(id, Onward(s.server.conns[id].pc));
      Concludes(s, id);
    } else {
      EndedHere(s, id);
      Wakeup.NoLostWakeup(cap, notice, run, k, id);
      e := Notify(if Owed(s.server.reader) > 0 then Reader else Reaper);
      CanNotify(s, id);
      NotifiesEnd(s, id, e.who);
    }
  }

  /** The client has been told that the session ended and has committed all of its output. */
  predicate ToldAll(s: State) {
    && s.client.phase.Over? && s.client.phase.reason.SessionEnded?
    && s.client.phase.reason.total == s.client.received == |s.server.history|
  }

  /** The Ended frame goes out. */
  lemma Finishes(s: State, id: nat)
    requires Done(s, id) && s.server.conns[id].queue == [] && s.server.conns[id].pc == Finishing
    ensures Enabled(s, Serve(id, Finish(true))) && OwnStep(Serve(id, Finish(true)), id)
    ensures var c, t := s.server.conns[id], Next(s, Serve(id, Finish(true)));
      && t.client == s.client && t.server.history == s.server.history
      && id in t.server.conns && t.server.conns[id].queue == [Final(c.seen, c.drained)]
  {
    var c := s.server.conns[id];
    assert [] + [Final(c.seen, c.drained)] == [Final(c.seen, c.drained)];
  }

  /** And is taken. */
  lemma TakesEnded(s: State, id: nat, seen: nat, drained: bool)
    requires s.client.phase == Streaming(id) && id in s.server.conns
    requires s.server.conns[id].queue == [Final(seen, drained)]
    ensures Enabled(s, Receive(None)) && OwnStep(Receive(None), id)
    ensures Next(s, Receive(None)).server.history == s.server.history
    ensures Next(s, Receive(None)).client == s.client.(phase := Over(SessionEnded(seen, drained)))
  {
    hide ServerNext, StepEnabled;
  }

  lemma TellsAll(s: State, c: Client, seen: nat, drained: bool)
    requires s.client == c.(phase := Over(SessionEnded(seen, drained))) && seen == c.received == |s.server.history|
    ensures ToldAll(s)
  {
  }

  lemma Nothing(run: Run, id: nat)
    ensures GoesOnFrom(run, run, id)
  {
  }

  lemma Tells(cap: nat, notice: Wording, run: Run, id: nat) returns (run': Run)
    requires run.Valid(cap, notice) && Done(run.Last(), id)
    requires run.Last().server.conns[id].queue == [] && run.Last().server.conns[id].pc == Finishing
    ensures run'.Valid(cap, notice) && GoesOnFrom(run, run', id) && ToldAll(run'.Last())
    ensures run'.Last().server.history == run.Last().server.history
  {
    var s, e := run.Last(), Serve(id, Finish(true));
    var c := s.server.conns[id];
    InvAlways(cap, notice, run, |run.states| - 1);
    CaughtUp(s, id);
    Finishes(s, id);
    hide Next, Enabled, OwnStep, Inv, Run.Valid, ToldAll, GoesOnFrom, Connected;
    Extend(cap, notice, run, e);
    var told := run.Then(e);
    TakesEnded(told.Last(), id, c.seen, c.drained);
    Extend(cap, notice, told, Receive(None));
    run' := told.Then(Receive(None));
    TellsAll(run'.Last(), s.client, c.seen, c.drained);
    Nothing(run', id);
    OneMore(told, Receive(None), run', id);
    OneMore(run, e, run', id);
  }

  lemma {:induction false} IsTold(cap: nat, notice: Wording, run: Run, id: nat) returns (run': Run)
    requires run.Valid(cap, notice) && Done(run.Last(), id)
    ensures run'.Valid(cap, notice) && GoesOnFrom(run, run', id) && ToldAll(run'.Last())
    ensures run'.Last().server.history == run.Last().server.history
    decreases
      DistanceToEnd(run.Last().server.conns[id].pc), Notices(run.Last().server), |run.Last().server.conns[id].queue|
  {
    var s := run.Last();
    if s.server.conns[id].pc == Finishing && s.server.conns[id].queue == [] {
      hide Next, Enabled, Done, Connected, OwnStep, Inv, GoesOnFrom, ToldAll, Run.Valid;
      run' := Tells(cap, notice, run, id);
    } else {
      var e := StepToEnd(cap, notice, run, id);
      hide Next, Enabled, Done, Connected, OwnStep, Inv, GoesOnFrom, ToldAll, Run.Valid;
      Extend(cap, notice, run, e);
      run' := IsTold(cap, notice, run.Then(e), id);
      OneMore(run, e, run', id);
    }
  }

  lemma ThenFurther(run: Run, next: Run, more: Run, id: nat)
    requires GoesOnFrom(run, next, id) && GoesOnFrom(next, more, id)
    ensures GoesOnFrom(run, more, id)
  {
    forall i | |run.events| <= i < |more.events|
      ensures OwnStep(more.events[i], id)
    {
      assert i < |next.events| ==> more.events[i] == next.events[i];
    }
  }

  /** And once the session has ended, they tell it so, with the whole history committed. */
  lemma EndsWell(cap: nat, notice: Wording, run: Run, id: nat) returns (run': Run)
    requires run.Valid(cap, notice) && Connected(run.Last(), id) && run.Last().server.ended
    ensures run'.Valid(cap, notice) && GoesOnFrom(run, run', id) && ToldAll(run'.Last())
    ensures run'.Last().server.history == run.Last().server.history
  {
    var caughtUp := CatchesUp(cap, notice, run, id);
    run' := IsTold(cap, notice, caughtUp, id);
    ThenFurther(run, caughtUp, run', id);
  }
}
