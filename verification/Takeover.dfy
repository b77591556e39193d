/** Which connection is the active one, how soon a superseded one falls silent, and whether the busy
    flag can be trusted. `become_active` and `leave` are two atomic instructions each. */
module Takeover {
  import opened ReplayRing
  import opened ClientOutput
  import opened Protocol

  /** The connection has been given an epoch. */
  predicate Admitted(c: Conn) {
    c.epoch > 0
  }

  /** Past the loop-head check of the current iteration. */
  predicate InIteration(pc: Pc) {
    pc == Current || pc == Registered || pc.Emitting? || pc == Checking || pc == Finishing || pc == Parked
  }

  ghost predicate ConnOk(c: Conn, active: nat) {
    && c.epoch <= active
    && (c.pc == Hailed || c.pc == Found || c.pc == Replied || c.pc == Authed ==> !Admitted(c))
    && (c.pc != Hailed && c.pc != Found && c.pc != Replied && c.pc != Authed && c.pc != Gone ==> Admitted(c))
    && c.late <= 1
    && (c.epoch == active || InIteration(c.pc) || !Admitted(c) ==> c.late == 0)
  }

  ghost predicate Distinct(conns: map<nat, Conn>) {
    forall i, j :: i in conns && j in conns && i != j && Admitted(conns[i]) ==> conns[i].epoch != conns[j].epoch
  }

  ghost predicate Inv(s: Server) {
    && (forall id :: id in s.conns ==> ConnOk(s.conns[id], s.active))
    && Distinct(s.conns)
    && (s.active == 0 ==> !s.connected)
  }

  /** A read touches nothing this module speaks of but the pc. */
  lemma ReadMoves(s: Server, c: Conn)
    requires c.pc == Registered
    ensures var d := StepConn(s, c, Read);
      InIteration(d.pc) && d.epoch == c.epoch && d.late == c.late
  {
    hide Ring.ReadFrom;
  }

  /** A step that writes a frame counts it as late if the connection is superseded. */
  lemma WriteKeeps(s: Server, c: Conn, e: Step)
    requires ConnOk(c, s.active) && StepEnabled(c, e) && (e.Write? || e.Finish? || e.Beat?)
    ensures ConnOk(StepConn(s, c, e), s.active)
  {
    hide AfterRead, Ring.ReadFrom, Ring.Total;
  }

  lemma OtherKeepsSelf(s: Server, c: Conn, e: Step)
    requires ConnOk(c, s.active) && StepEnabled(c, e) && !e.Read? && !e.Write? && !e.Finish? && !e.Beat?
    ensures ConnOk(StepConn(s, c, e), StepShared(s, c, e).active)
  {
    hide AfterRead, Ring.ReadFrom, Ring.Total;
  }

  lemma StepKeepsSelf(s: Server, c: Conn, e: Step)
    requires ConnOk(c, s.active) && StepEnabled(c, e)
    ensures ConnOk(StepConn(s, c, e), StepShared(s, c, e).active)
  {
    if e.Read? {
      hide StepConn;
      ReadMoves(s, c);
    } else if e.Write? || e.Finish? || e.Beat? {
      hide StepConn;
      WriteKeeps(s, c, e);
    } else {
      OtherKeepsSelf(s, c, e);
    }
  }

  /** Only `Enter` hands out an epoch, the next one. */
  lemma EpochStep(s: Server, c: Conn, e: Step)
    requires StepEnabled(c, e)
    ensures StepConn(s, c, e).epoch == if e.Enter? then s.active + 1 else c.epoch
    ensures StepShared(s, c, e).active == if e.Enter? then s.active + 1 else s.active
    ensures StepShared(s, c, e).connected == if e.Activate? then true else if e.LeaveStore? then false else s.connected
  {
    hide Ring.ReadFrom, Ring.Total;
  }

  lemma DistinctKeeps(conns: map<nat, Conn>, id: nat, c: Conn, active: nat)
    requires Distinct(conns) && id in conns && forall k :: k in conns ==> conns[k].epoch <= active
    requires c.epoch == conns[id].epoch || c.epoch == active + 1
    ensures Distinct(conns[id := c])
  {
  }

  lemma ServeMoves(s: Server, id: nat, step: Step)
    requires id in s.conns && StepEnabled(s.conns[id], step)
    ensures var s', c := ServerNext(s, Serve(id, step)), s.conns[id];
      && s'.conns == s.conns[id := StepConn(s, c, step)]
      && s'.active == StepShared(s, c, step).active && s'.connected == StepShared(s, c, step).connected
  {
    hide StepConn;
  }

  /** The flag can only be set once an epoch was handed out. */
  lemma Admits(s: Server, id: nat, step: Step)
    requires Inv(s) && id in s.conns && StepEnabled(s.conns[id], step)
    ensures step.Activate? ==> s.active > 0
  {
    assert ConnOk(s.conns[id], s.active);
  }

  /** The connections that do not step stay well whatever the counter grows to. */
  lemma OthersKeep(s: Server, active: nat)
    requires Inv(s) && s.active <= active
    ensures forall k :: k in s.conns && (active == s.active || s.conns[k].epoch <= s.active) ==>
      ConnOk(s.conns[k], active)
  {
    forall k | k in s.conns
      ensures ConnOk(s.conns[k], active)
    {
      assert ConnOk(s.conns[k], s.active);
    }
  }

  lemma Epochs(s: Server)
    requires Inv(s)
    ensures forall k :: k in s.conns ==> s.conns[k].epoch <= s.active
  {
  }

  lemma ServeKeeps(s: Server, id: nat, step: Step)
    requires Inv(s) && id in s.conns && StepEnabled(s.conns[id], step)
    ensures Inv(ServerNext(s, Serve(id, step)))
  {
    hide StepConn, StepShared, StepEnabled, ServerNext, ConnOk, Distinct;
    var c := s.conns[id];
    ServeMoves(s, id, step);
    StepKeepsSelf(s, c, step);
    EpochStep(s, c, step);
    Epochs(s);
    DistinctKeeps(s.conns, id, StepConn(s, c, step), s.active);
    OthersKeep(s, StepShared(s, c, step).active);
    Admits(s, id, step);
  }

  /** No other step touches an epoch, a pc, a late count or the shared flags. */
  lemma OtherStep(s: State, e: Event)
    requires Enabled(s, e) && !e.Serve?
    ensures var server' := Next(s, e).server;
      && server'.active == s.server.active && server'.connected == s.server.connected
      && s.server.conns.Keys <= server'.conns.Keys
      && forall k :: k in server'.conns ==>
        && var c := server'.conns[k];
        if k in s.server.conns then
          c.epoch == s.server.conns[k].epoch && c.pc == s.server.conns[k].pc && c.late == s.server.conns[k].late
        else
          c.epoch == 0 && c.pc == Hailed && c.late == 0
  {
    hide StepConn, Deliver, Ring.Append;
  }

  lemma NextKeeps(s: State, e: Event)
    requires Inv(s.server) && Enabled(s, e)
    ensures Inv(Next(s, e).server)
  {
    hide ServerNext, StepEnabled;
    if e.Serve? {
      ServeKeeps(s.server, e.id, e.step);
    } else {
      OtherStep(s, e);
      hide Next, Enabled;
      var server' := Next(s, e).server;
      forall k | k in server'.conns
        ensures ConnOk(server'.conns[k], server'.active)
      {
        assert k in s.server.conns ==> ConnOk(s.server.conns[k], s.server.active);
      }
    }
  }

  lemma {:induction false} InvAlways(cap: nat, notice: Wording, run: Run, k: nat)
    requires run.Valid(cap, notice) && k < |run.states|
    ensures Inv(run.states[k].server)
  {
    if k > 0 {
      hide *;
      InvAlways(cap, notice, run, k - 1);
      StepOf(cap, notice, run, k);
      NextKeeps(run.states[k - 1], run.events[k - 1]);
    }
  }

  /** Epochs handed out are distinct, so at most one connection passes `is_current`. */
  lemma OneCurrent(cap: nat, notice: Wording, run: Run, k: nat, i: nat, j: nat)
    requires run.Valid(cap, notice) && k < |run.states|
    ensures var s := run.states[k].server;
      i in s.conns && j in s.conns && Admitted(s.conns[i]) ==>
        && s.conns[i].epoch <= s.active
        && (s.conns[i].epoch == s.conns[j].epoch ==> i == j)
  {
    InvAlways(cap, notice, run, k);
    var s := run.states[k].server;
    if i in s.conns {
      assert ConnOk(s.conns[i], s.active);
    }
  }

  /** A superseded writer emits at most one more frame, and none once it is back at the loop head. */
  lemma AtMostOneLateFrame(cap: nat, notice: Wording, run: Run, k: nat, id: nat)
    requires run.Valid(cap, notice) && k < |run.states|
    ensures var s := run.states[k].server;
      id in s.conns ==> s.conns[id].late <= 1 && (InIteration(s.conns[id].pc) ==> s.conns[id].late == 0)
  {
    InvAlways(cap, notice, run, k);
    var s := run.states[k].server;
    if id in s.conns {
      assert ConnOk(s.conns[id], s.active);
    }
  }

  // When the busy flag can be trusted

  /** A newer connection has taken the epoch. */
  predicate Superseded(c: Conn, active: nat) {
    0 < c.epoch != active
  }

  /** Connection `id` holds the newest epoch and has stored that it is there. */
  predicate Holds(s: Server, id: nat) {
    id in s.conns && s.conns[id].epoch == s.active > 0 && s.conns[id].pc != Entering
  }

  /** The busy flag tells whether the newest holder is still there. */
  predicate Right(s: Server, id: nat)
    requires Holds(s, id)
  {
    s.connected == (s.conns[id].pc != Gone)
  }

  /** A superseded connection is about to store: that it is active, or that it left while the holder is there. */
  predicate Threatens(s: Server, id: nat, k: nat)
    requires Holds(s, id)
  {
    && k in s.conns && Superseded(s.conns[k], s.active)
    && (s.conns[k].pc == Entering || (s.conns[k].pc == Leaving && s.conns[id].pc != Gone))
  }

  ghost predicate Threatened(s: Server, id: nat)
    requires Holds(s, id)
  {
    exists k: nat :: Threatens(s, id, k)
  }

  predicate HandsOut(e: Event) {
    e.Serve? && e.step.Enter?
  }

  /** A connection comes to stand before one of the two stores only by entering, or as the holder of the epoch. */
  lemma PcStep(s: Server, c: Conn, step: Step)
    requires StepEnabled(c, step)
    ensures var pc := StepConn(s, c, step).pc;
      && (pc == Entering && c.pc != Entering ==> step.Enter?)
      && (pc == Leaving && c.pc != Leaving ==> c.epoch == s.active)
      && (step.Activate? ==> c.pc == Entering) && (step.LeaveStore? ==> c.pc == Leaving && pc == Gone)
      && (c.pc == Gone ==> pc == Gone)
      && (pc == Gone && c.pc != Gone ==>
           step.LeaveStore? || step.Lookup? || step.Reply? || step.Refuse? || c.epoch != s.active)
  {
    hide Ring.ReadFrom, Ring.Total, Send;
  }

  /** What a connection that does not hold the newest epoch may do to a trusted flag. */
  lemma OtherServes(s: Server, id: nat, k: nat, step: Step)
    requires Inv(s) && Holds(s, id) && Right(s, id) && !Threatened(s, id)
    requires k in s.conns && k != id && StepEnabled(s.conns[k], step) && !step.Enter?
    ensures var s' := ServerNext(s, Serve(k, step));
      Holds(s', id) && Right(s', id) && !Threatens(s', id, k)
  {
    hide StepConn, StepShared, ServerNext;
    assert ConnOk(s.conns[k], s.active) && !Threatens(s, id, k);
    assert Admitted(s.conns[k]) ==> s.conns[k].epoch != s.conns[id].epoch;
    ServeMoves(s, k, step);
    EpochStep(s, s.conns[k], step);
    PcStep(s, s.conns[k], step);
  }

  /** What the holder itself does. */
  lemma HolderServes(s: Server, id: nat, step: Step)
    requires Inv(s) && Holds(s, id) && Right(s, id) && StepEnabled(s.conns[id], step) && !step.Enter?
    ensures var s' := ServerNext(s, Serve(id, step));
      Holds(s', id) && Right(s', id) && !Threatens(s', id, id)
  {
    hide StepConn, StepShared, ServerNext;
    assert ConnOk(s.conns[id], s.active);
    ServeMoves(s, id, step);
    EpochStep(s, s.conns[id], step);
    PcStep(s, s.conns[id], step);
  }

  lemma ServeStaysRight(s: Server, id: nat, k: nat, step: Step)
    requires Inv(s) && Holds(s, id) && Right(s, id) && !Threatened(s, id)
    requires k in s.conns && StepEnabled(s.conns[k], step) && !step.Enter?
    ensures var s' := ServerNext(s, Serve(k, step));
      Holds(s', id) && Right(s', id) && !Threatened(s', id)
  {
    hide StepConn, StepShared, ServerNext, Inv;
    if k == id {
      HolderServes(s, id, step);
    } else {
      OtherServes(s, id, k, step);
    }
    ServeMoves(s, k, step);
    EpochStep(s, s.conns[k], step);
    PcStep(s, s.conns[k], step);
    var s' := ServerNext(s, Serve(k, step));
    forall j: nat | j != k
      ensures !Threatens(s', id, j)
    {
      assert !Threatens(s, id, j);
    }
  }

  lemma NextStaysRight(s: State, e: Event, id: nat)
    requires Inv(s.server) && Enabled(s, e) && !HandsOut(e)
    requires Holds(s.server, id) && Right(s.server, id) && !Threatened(s.server, id)
    ensures var t := Next(s, e).server;
      Holds(t, id) && Right(t, id) && !Threatened(t, id)
  {
    hide ServerNext, StepEnabled;
    if e.Serve? {
      ServeStaysRight(s.server, id, e.id, e.step);
    } else {
      OtherStep(s, e);
      hide Next, Enabled, Inv;
      var t := Next(s, e).server;
      forall k: nat
        ensures !Threatens(t, id, k)
      {
        assert !Threatens(s.server, id, k);
      }
    }
  }

  /** As long as nobody takes the epoch, a right flag that is not threatened stays right and unthreatened. */
  lemma {:induction false} StaysRight(cap: nat, notice: Wording, run: Run, j: nat, k: nat, id: nat)
    requires run.Valid(cap, notice) && j <= k < |run.states|
    requires forall i :: j <= i < k ==> !HandsOut(run.events[i])
    requires var s := run.states[j].server; Holds(s, id) && Right(s, id) && !Threatened(s, id)
    ensures var s := run.states[k].server; Holds(s, id) && Right(s, id) && !Threatened(s, id)
    decreases k
  {
    if j < k {
      StaysRight(cap, notice, run, j, k - 1, id);
      InvAlways(cap, notice, run, k - 1);
      StepOf(cap, notice, run, k);
      hide *;
      NextStaysRight(run.states[k - 1], run.events[k - 1], id);
    }
  }

  /** `run'` goes on from `run` without anyone taking the epoch. */
  ghost predicate GoesOn(run: Run, run': Run) {
    && run.states <= run'.states && run.events <= run'.events
    && forall i :: |run.events| <= i < |run'.events| ==> !HandsOut(run'.events[i])
  }

  /** The server task of connection `id` takes a step. */
  lemma Serves(cap: nat, notice: Wording, run: Run, id: nat, step: Step) returns (run': Run)
    requires run.Valid(cap, notice)
    requires id in run.Last().server.conns && StepEnabled(run.Last().server.conns[id], step)
    ensures run'.Valid(cap, notice) && run'.Last().server == ServerNext(run.Last().server, Serve(id, step))
    ensures !step.Enter? ==> GoesOn(run, run')
  {
    Extend(cap, notice, run, Serve(id, step));
    run' := run.Then(Serve(id, step));
  }

  /** The next step of a connection on its way out. */
  function Away(pc: Pc): Step {
    match pc
    case Current => Register
    case Registered => Read
    case Checking => CheckEnded
    case Exiting => LeaveCheck
    case Leaving => LeaveStore
    case _ => Cancel
  }

  function StepsToGone(pc: Pc): nat {
    match pc
    case Current => 6
    case Registered => 5
    case Checking => 4
    case Exiting => 2
    case Leaving => 1
    case Gone => 0
    case _ => 3
  }

  /** It holds the epoch and comes one step nearer to its end. */
  lemma StepAway(s: Server, c: Conn)
    requires ConnOk(c, s.active) && c.epoch == s.active > 0 && c.pc != Entering && c.pc != Gone
    ensures StepEnabled(c, Away(c.pc)) && !Away(c.pc).Enter? && !Away(c.pc).Activate?
    ensures var d := StepConn(s, c, Away(c.pc));
      d.epoch == c.epoch && d.pc != Entering && StepsToGone(d.pc) < StepsToGone(c.pc)
    ensures Away(c.pc).LeaveStore? <==> StepConn(s, c, Away(c.pc)).pc == Gone
  {
    hide Ring.ReadFrom, Ring.Total;
  }

  lemma GoesFurther(run: Run, next: Run, more: Run)
    requires GoesOn(run, next) && GoesOn(next, more)
    ensures GoesOn(run, more)
  {
    forall i | |run.events| <= i < |more.events|
      ensures !HandsOut(more.events[i])
    {
      assert i < |next.events| ==> more.events[i] == next.events[i];
    }
  }

  /** The holder of the epoch can always go, while everybody else stays where they are. */
  lemma {:induction false} DrivesAway(cap: nat, notice: Wording, run: Run, id: nat) returns (run': Run)
    requires run.Valid(cap, notice) && Holds(run.Last().server, id) && run.Last().server.conns[id].pc != Gone
    ensures run'.Valid(cap, notice) && GoesOn(run, run')
    ensures var s, t := run'.Last().server, run.Last().server;
      && Holds(s, id) && s.conns[id].pc == Gone && !s.connected && s.active == t.active
      && s.conns == t.conns[id := s.conns[id]]
    decreases StepsToGone(run.Last().server.conns[id].pc)
  {
    var s := run.Last().server;
    var step := Away(s.conns[id].pc);
    InvAlways(cap, notice, run, |run.states| - 1);
    assert ConnOk(s.conns[id], s.active);
    hide Inv, ConnOk, StepConn, StepShared, ServerNext, StepEnabled, Run.Valid;
    StepAway(s, s.conns[id]);
    run' := Serves(cap, notice, run, id, step);
    ServeMoves(s, id, step);
    EpochStep(s, s.conns[id], step);
    if StepConn(s, s.conns[id], step).pc != Gone {
      var more := DrivesAway(cap, notice, run', id);
      GoesFurther(run, run', more);
      run' := more;
    }
  }

  /** A later state of the run in which the flag is wrong about the same holder. */
  ghost predicate Misled(cap: nat, notice: Wording, run: Run, id: nat, run': Run) {
    && run'.Valid(cap, notice) && GoesOn(run, run')
    && Holds(run'.Last().server, id) && !Right(run'.Last().server, id)
  }

  /** A threat can be carried out: the superseded connection stores, after the holder has gone if it is the
      one that is still entering. */
  lemma Misleads(cap: nat, notice: Wording, run: Run, id: nat, k: nat) returns (run': Run)
    requires run.Valid(cap, notice) && Holds(run.Last().server, id) && Threatens(run.Last().server, id, k)
    ensures Misled(cap, notice, run, id, run')
  {
    var s := run.Last().server;
    run' := run;
    if s.conns[k].pc == Leaving {
      run' := Serves(cap, notice, run, k, LeaveStore);
    } else {
      if s.conns[id].pc != Gone {
        run' := DrivesAway(cap, notice, run, id);
      }
      var gone := run';
      run' := Serves(cap, notice, gone, k, Activate);
      GoesFurther(run, gone, run');
    }
  }

  /** When the busy flag is right about the newest holder, it can go wrong, without any connection taking the
      epoch meanwhile, if and only if a superseded connection stands between the two instructions of
      `become_active`, or of `leave` while the holder is still there. */
  lemma BusyExactly(cap: nat, notice: Wording, run: Run, id: nat)
    requires run.Valid(cap, notice) && Holds(run.Last().server, id) && Right(run.Last().server, id)
    ensures (exists run': Run :: Misled(cap, notice, run, id, run')) <==> Threatened(run.Last().server, id)
  {
    if Threatened(run.Last().server, id) {
      var k: nat :| Threatens(run.Last().server, id, k);
      var run' := Misleads(cap, notice, run, id, k);
    }
    forall run': Run | Misled(cap, notice, run, id, run')
      ensures Threatened(run.Last().server, id)
    {
      if !Threatened(run.Last().server, id) {
        assert run'.states[|run.states| - 1] == run.Last();
        StaysRight(cap, notice, run', |run.states| - 1, |run'.states| - 1, id);
      }
    }
  }

  /** The holder's own store puts the flag right, whatever it said before. */
  lemma OwnStore(cap: nat, notice: Wording, run: Run, k: nat, id: nat)
    requires run.Valid(cap, notice) && k < |run.events| && id in run.states[k].server.conns
    requires run.events[k] == Serve(id, Activate) || run.events[k] == Serve(id, LeaveStore)
    ensures var s, t := run.states[k].server, run.states[k + 1].server;
      s.conns[id].epoch == s.active ==> Holds(t, id) && Right(t, id)
  {
    InvAlways(cap, notice, run, k);
    assert run.StepAt(k);
    assert ConnOk(run.states[k].server.conns[id], run.states[k].server.active);
  }

  // Two runs in which the flag is wrong once every method has returned

  /** A further connection completes its handshake. */
  lemma Arrives(cap: nat, notice: Wording, run: Run, id: nat) returns (run': Run)
    requires run.Valid(cap, notice) && id !in run.Last().server.conns && !run.Last().server.ended
    ensures run'.Valid(cap, notice)
    ensures var s, t := run'.Last().server, run.Last().server;
      id in s.conns && s.conns[id].pc == Authed && s == t.(conns := t.conns[id := s.conns[id]])
  {
    Extend(cap, notice, run, Stranger(id, 0));
    run' := run.Then(Stranger(id, 0));
    run' := Serves(cap, notice, run', id, Lookup);
    run' := Serves(cap, notice, run', id, Reply);
    run' := Serves(cap, notice, run', id, Auth);
  }

  /** Only connection `id` came or moved between two points of a run. */
  ghost predicate OnlyMoved(s: Server, t: Server, id: nat) {
    && t.conns.Keys == s.conns.Keys + {id} && t.ended == s.ended
    && forall k :: k in s.conns && k != id ==> t.conns[k] == s.conns[k]
  }

  /** It then increments the epoch. */
  lemma Enters(cap: nat, notice: Wording, run: Run, id: nat) returns (run': Run)
    requires run.Valid(cap, notice) && id !in run.Last().server.conns && !run.Last().server.ended
    ensures run'.Valid(cap, notice)
    ensures var s, t := run'.Last().server, run.Last().server;
      OnlyMoved(t, s, id) && s.conns[id].pc == Entering && s.conns[id].epoch == s.active == t.active + 1
  {
    run' := Arrives(cap, notice, run, id);
    run' := Serves(cap, notice, run', id, Enter);
  }

  /** And becomes the active one. */
  lemma TakesOver(cap: nat, notice: Wording, run: Run, id: nat) returns (run': Run)
    requires run.Valid(cap, notice) && id !in run.Last().server.conns && !run.Last().server.ended
    ensures run'.Valid(cap, notice)
    ensures var s, t := run'.Last().server, run.Last().server;
      OnlyMoved(t, s, id) && s.conns[id].pc == Top && s.conns[id].epoch == s.active
  {
    run' := Enters(cap, notice, run, id);
    run' := Serves(cap, notice, run', id, Activate);
  }

  /** A connection that holds the epoch is about to store that it left. */
  lemma StartsLeaving(cap: nat, notice: Wording, run: Run, id: nat) returns (run': Run)
    requires run.Valid(cap, notice) && id !in run.Last().server.conns && !run.Last().server.ended
    ensures run'.Valid(cap, notice)
    ensures var s, t := run'.Last().server, run.Last().server;
      OnlyMoved(t, s, id) && s.conns[id].pc == Leaving && s.conns[id].epoch == s.active == t.active + 1
  {
    run' := Enters(cap, notice, run, id);
    run' := Serves(cap, notice, run', id, Activate);
    run' := Serves(cap, notice, run', id, Cancel);
    run' := Serves(cap, notice, run', id, LeaveCheck);
  }

  /** An old connection checks that it is current, is superseded, and then clears the new one's flag:
      a second attach would be admitted beside the active connection. */
  lemma StaleLeaveClearsBusy(cap: nat, notice: Wording) returns (run: Run)
    ensures run.Valid(cap, notice)
    ensures var s := run.Last().server;
      && s.conns.Keys == {0, 1} && s.conns[0].pc == Gone
      && s.conns[1].pc == Top && s.conns[1].epoch == s.active && !s.connected && !s.ended
  {
    run := StartsLeaving(cap, notice, Start(cap, notice), 0);
    run := TakesOver(cap, notice, run, 1);
    run := Serves(cap, notice, run, 0, LeaveStore);
  }

  /** An overtaken connection sets the flag, finds it is not current and leaves. */
  lemma GoesStale(cap: nat, notice: Wording, run: Run, id: nat) returns (run': Run)
    requires run.Valid(cap, notice) && id in run.Last().server.conns
    requires var t := run.Last().server; t.conns[id].pc == Entering && t.conns[id].epoch != t.active
    ensures run'.Valid(cap, notice)
    ensures var s, t := run'.Last().server, run.Last().server;
      OnlyMoved(t, s, id) && s.conns[id].pc == Gone && s.connected
  {
    run' := Serves(cap, notice, run, id, Activate);
    run' := Serves(cap, notice, run', id, Check);
    run' := Serves(cap, notice, run', id, LeaveCheck);
  }

  /** A connection is overtaken between its two instructions and sets the flag after the newest holder
      has left: every later attach is refused though no connection remains. */
  lemma StaleEntryLeavesBusy(cap: nat, notice: Wording) returns (run: Run)
    ensures run.Valid(cap, notice)
    ensures var s := run.Last().server;
      s.conns.Keys == {0, 1} && s.conns[0].pc == Gone && s.conns[1].pc == Gone && s.connected && !s.ended
  {
    run := Enters(cap, notice, Start(cap, notice), 0);
    run := StartsLeaving(cap, notice, run, 1);
    run := Serves(cap, notice, run, 1, LeaveStore);
    run := GoesStale(cap, notice, run, 0);
  }
}
