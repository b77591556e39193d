/** The writer's wakeup protocol: registering before reading loses no notification. */
module Wakeup {
  import opened Bytes
  import opened ReplayRing
  import opened ClientOutput
  import opened Protocol
  import Replay

  /** Some producer has changed the session and not yet called `notify_waiters`. */
  predicate Pending(s: Server) {
    s.reader == Dirty || s.reader == Swapped || s.reaper == Dirty || s.reaper == Swapped
  }

  /** A writer that registered before it looked is woken, or about to be, by whatever it missed. */
  ghost predicate WakeOk(c: Conn, s: Server) {
    && (c.pc == Registered || c.pc == Checking || c.pc == Parked ==> c.waiter.Some?)
    && (c.pc == Checking || c.pc == Parked ==>
        c.cursor < |s.history| ==> c.waiter == Some(true) || Pending(s))
    && (c.pc == Parked ==>
        s.ended ==> c.waiter == Some(true) || Pending(s))
  }

  ghost predicate Inv(s: Server) {
    forall id :: id in s.conns ==> WakeOk(s.conns[id], s)
  }

  lemma ReadKeeps(s: Server, c: Conn)
    requires c.pc == Registered && s.ring == RingOf(s.history, s.ring.cap) && WakeOk(c, s)
    ensures WakeOk(StepConn(s, c, Read), s)
  {
    ReadSlicesHistory(s.history, s.ring.cap, c.cursor);
    hide Ring.ReadFrom, RingOf;
  }

  lemma StepKeeps(s: Server, c: Conn, e: Step)
    requires s.ring == RingOf(s.history, s.ring.cap) && WakeOk(c, s) && StepEnabled(c, e)
    ensures WakeOk(StepConn(s, c, e), s)
  {
    hide Ring.ReadFrom, Ring.Total, AfterRead, RingOf;
    if e.Read? {
      ReadKeeps(s, c);
    }
  }

  lemma ServeKeeps(s: Server, id: nat, step: Step)
    requires s.ring == RingOf(s.history, s.ring.cap) && Inv(s) && id in s.conns && StepEnabled(s.conns[id], step)
    ensures Inv(ServerNext(s, Serve(id, step)))
  {
    var s' := ServerNext(s, Serve(id, step));
    StepKeeps(s, s.conns[id], step);
    assert s'.history == s.history && s'.ended == s.ended && s'.reader == s.reader && s'.reaper == s.reaper;
    forall k | k in s'.conns
      ensures WakeOk(s'.conns[k], s')
    {
      assert k != id ==> WakeOk(s.conns[k], s);
    }
  }

  lemma ProducerKeeps(s: Server, e: Event)
    requires Inv(s) && (e.Produce? || e.Swap? || e.Notify?)
    requires e.Produce? ==> s.reader == Running && s.ring.Total() + |e.bytes| < U64_LIMIT
    requires e.Swap? ==> ProducerOf(s, e.who) == Running
    ensures Inv(ServerNext(s, e))
  {
    var s' := ServerNext(s, e);
    forall id | id in s'.conns
      ensures WakeOk(s'.conns[id], s')
    {
      assert WakeOk(s.conns[id], s);
    }
  }

  lemma NextKeeps(s: State, e: Event)
    requires Replay.Inv(s) && Inv(s.server) && Enabled(s, e)
    ensures Inv(Next(s, e).server)
  {
    var server' := Next(s, e).server;
    if e.Serve? {
      ServeKeeps(s.server, e.id, e.step);
    } else if e.Produce? || e.Swap? || e.Notify? {
      ProducerKeeps(s.server, e);
    } else {
      forall id | id in server'.conns
        ensures WakeOk(server'.conns[id], server')
      {
        assert id in s.server.conns ==> WakeOk(s.server.conns[id], s.server);
      }
    }
  }

  lemma {:induction false} InvAlways(cap: nat, notice: Wording, run: Run, k: nat)
    requires run.Valid(cap, notice) && k < |run.states|
    ensures Inv(run.states[k].server)
  {
    if k > 0 {
      hide *;
      InvAlways(cap, notice, run, k - 1);
      Replay.InvAlways(cap, notice, run, k - 1);
      StepOf(cap, notice, run, k);
      NextKeeps(run.states[k - 1], run.events[k - 1]);
    }
  }

  /** No lost wakeup, at instruction granularity: whenever a writer is parked although the session has
      output it has not sent, or has ended, it has been notified or some producer's notification is
      still to come. */
  lemma NoLostWakeup(cap: nat, notice: Wording, run: Run, k: nat, id: nat)
    requires run.Valid(cap, notice) && k < |run.states|
    ensures var s := run.states[k].server;
      id in s.conns && s.conns[id].pc == Parked && (s.conns[id].cursor < s.ring.Total() || s.ended) ==>
        s.conns[id].waiter == Some(true) || Pending(s)
  {
    InvAlways(cap, notice, run, k);
    Replay.InvAlways(cap, notice, run, k);
    var s := run.states[k].server;
    AppendRefines(s.history, s.ring.cap, []);
    if id in s.conns {
      assert WakeOk(s.conns[id], s);
    }
  }

  /** Once every producer has notified, a writer that stays asleep has sent everything, and the session lives. */
  lemma AsleepMeansCaughtUp(cap: nat, notice: Wording, run: Run, k: nat, id: nat)
    requires run.Valid(cap, notice) && k < |run.states|
    ensures var s := run.states[k].server;
      !Pending(s) && id in s.conns && s.conns[id].pc == Parked && s.conns[id].waiter != Some(true) ==>
        s.conns[id].sent == s.conns[id].cursor == |s.history| && !s.ended
  {
    InvAlways(cap, notice, run, k);
    Replay.InvAlways(cap, notice, run, k);
    var s := run.states[k].server;
    if id in s.conns {
      assert WakeOk(s.conns[id], s);
      assert Replay.ConnOk(s.conns[id], s.history, s.ring.start);
    }
  }

  /** Nothing is left behind: when the writer of the client's live connection stays asleep, every producer has
      notified and nothing is in flight, the client has committed the whole history of a session that lives. */
  lemma QuietMeansDelivered(cap: nat, notice: Wording, run: Run, k: nat)
    requires run.Valid(cap, notice) && k < |run.states|
    ensures var s := run.states[k];
      s.client.phase.Streaming? && s.client.phase.id in s.server.conns && !Pending(s.server) ==>
        var c := s.server.conns[s.client.phase.id];
        c.pc == Parked && c.waiter != Some(true) && c.queue == [] && !c.cut ==>
          s.client.received == |s.server.history| && !s.server.ended
  {
    Replay.InFlightChain(cap, notice, run, k);
    var s := run.states[k];
    if s.client.phase.Streaming? {
      AsleepMeansCaughtUp(cap, notice, run, k, s.client.phase.id);
    }
  }

  /** The steps by which a connection gets on without waiting for a timer or a failure. */
  predicate Forward(step: Step) {
    || step.Enter? || step.Activate? || step.Check? || step.Register? || step.Read? || step.CheckEnded? || step.Wake?
    || step == Write(true) || step == Finish(true)
  }

  /** Never stuck: as long as a client on a connection the network carries lacks a byte of the history, a frame
      is in flight to it, its writer can get on, or a producer is about to notify. */
  lemma NeverStuck(cap: nat, notice: Wording, run: Run, k: nat) returns (step: Step)
    requires run.Valid(cap, notice) && k < |run.states|
    ensures var s := run.states[k];
      s.client.phase.Streaming? && s.client.phase.id in s.server.conns && s.client.received < |s.server.history| ==>
        var c := s.server.conns[s.client.phase.id];
        !c.cut && Replay.Writing(c.pc) ==>
          c.queue != [] || Pending(s.server) || (Forward(step) && StepEnabled(c, step))
  {
    step := Wake;
    QuietMeansDelivered(cap, notice, run, k);
    var s := run.states[k];
    if s.client.phase.Streaming? && s.client.phase.id in s.server.conns {
      match s.server.conns[s.client.phase.id].pc {
        case Authed => step := Enter;
        case Entering => step := Activate;
        case Top => step := Check;
        case Current => step := Register;
        case Registered => step := Read;
        case Emitting(_) => step := Write(true);
        case Checking => step := CheckEnded;
        case Finishing => step := Finish(true);
        case _ =>
      }
    }
  }
}
