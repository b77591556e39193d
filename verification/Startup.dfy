/** Any number of daemons starting, serving and dying around one control socket (src/server/daemon.rs, `run`).
    A step is one system call; a process may die before any of them. */
module Startup {
  import opened Bytes

  /** Where a process stands: waiting for the startup lock, holding it, having found no live daemon, having
      bound its TCP port, having cleared the path, having its socket at the path, listening on it, serving. */
  datatype Pc = Waiting | Locked | Alone | TcpBound | Cleared | Named | Published | Serving | Dead

  /** The lock's holder, whose socket the path names, live listener or not, and the processes. */
  datatype State = State(lock: Option<nat>, path: Option<nat>, procs: map<nat, Pc>)

  datatype Event =
    | Start(id: nat)
    | Acquire(id: nat)
    | Probe(id: nat)
    | BindTcp(id: nat, ok: bool)
    | Unlink(id: nat)
    | BindPath(id: nat)
    | Listen(id: nat)
    | Unlock(id: nat)
    | Die(id: nat)

  const INIT := State(None, None, map[])

  predicate Is(s: State, id: nat, pc: Pc) {
    id in s.procs && s.procs[id] == pc
  }

  /** A process that accepts control connections. */
  predicate Live(s: State, id: nat) {
    Is(s, id, Published) || Is(s, id, Serving)
  }

  /** `connect` succeeds exactly when the path names a live listener. */
  predicate Answers(s: State) {
    s.path.Some? && Live(s, s.path.value)
  }

  function Move(s: State, id: nat, pc: Pc): State {
    s.(procs := s.procs[id := pc])
  }

  /** A process that ends lets go of the lock and leaves its socket at the path. */
  function Exit(s: State, id: nat): State {
    State(if s.lock == Some(id) then None else s.lock, s.path, s.procs[id := Dead])
  }

  predicate Enabled(s: State, e: Event) {
    match e
    case Start(id) => id !in s.procs
    case Acquire(id) => Is(s, id, Waiting) && s.lock == None
    case Probe(id) => Is(s, id, Locked)
    case BindTcp(id, _) => Is(s, id, Alone)
    case Unlink(id) => Is(s, id, TcpBound)
    case BindPath(id) => Is(s, id, Cleared)
    case Listen(id) => Is(s, id, Named)
    case Unlock(id) => Is(s, id, Published)
    case Die(id) => id in s.procs
  }

  function Next(s: State, e: Event): State
    requires Enabled(s, e)
  {
    match e
    case Start(id) => Move(s, id, Waiting)
    case Acquire(id) => Move(s, id, Locked).(lock := Some(id))
    case Probe(id) => if Answers(s) then Exit(s, id) else Move(s, id, Alone)
    case BindTcp(id, ok) => if ok then Move(s, id, TcpBound) else Exit(s, id)
    case Unlink(id) => Move(s, id, Cleared).(path := None)
    case BindPath(id) => if s.path == None then Move(s, id, Named).(path := Some(id)) else Exit(s, id)
    case Listen(id) => Move(s, id, Published)
    case Unlock(id) => Move(s, id, Serving).(lock := None)
    case Die(id) => Exit(s, id)
  }

  datatype Run = Run(states: seq<State>, events: seq<Event>) {
    ghost predicate StepAt(i: nat) {
      i < |events| && i + 1 < |states| && Enabled(states[i], events[i]) && states[i + 1] == Next(states[i], events[i])
    }

    ghost predicate Valid() {
      && |states| == |events| + 1 && states[0] == INIT
      && forall i: nat :: i < |events| ==> StepAt(i)
    }
  }

  // The invariant

  /** Between taking the lock and letting it go. */
  predicate Critical(pc: Pc) {
    pc == Locked || pc == Alone || pc == TcpBound || pc == Cleared || pc == Named || pc == Published
  }

  /** Past the probe and not yet listening. */
  predicate Claiming(pc: Pc) {
    pc == Alone || pc == TcpBound || pc == Cleared || pc == Named
  }

  /** What a process relies on, by how far it has come. */
  predicate ProcOk(s: State, id: nat, pc: Pc) {
    && (Critical(pc) ==> s.lock == Some(id))
    && (pc == Named || pc == Published || pc == Serving ==> s.path == Some(id))
    && (pc == Cleared ==> s.path == None)
    && (Claiming(pc) ==> !Answers(s))
  }

  ghost predicate Inv(s: State) {
    forall id: nat :: id in s.procs ==> ProcOk(s, id, s.procs[id])
  }

  /** Another process keeps what it relies on: only the holder of the lock acts on the path. */
  lemma OtherKeeps(s: State, e: Event, k: nat)
    requires Inv(s) && Enabled(s, e) && k in s.procs && k != e.id
    ensures k in Next(s, e).procs && Next(s, e).procs[k] == s.procs[k]
    ensures ProcOk(Next(s, e), k, s.procs[k])
  {
    assert ProcOk(s, k, s.procs[k]);
    if e.id in s.procs {
      assert ProcOk(s, e.id, s.procs[e.id]);
    }
  }

  lemma SelfKeeps(s: State, e: Event)
    requires Inv(s) && Enabled(s, e)
    ensures e.id in Next(s, e).procs && ProcOk(Next(s, e), e.id, Next(s, e).procs[e.id])
  {
    if e.id in s.procs {
      assert ProcOk(s, e.id, s.procs[e.id]);
    }
  }

  lemma NextKeeps(s: State, e: Event)
    requires Inv(s) && Enabled(s, e)
    ensures Inv(Next(s, e))
  {
    SelfKeeps(s, e);
    forall k | k in Next(s, e).procs
      ensures ProcOk(Next(s, e), k, Next(s, e).procs[k])
    {
      if k != e.id {
        assert k in s.procs;
        OtherKeeps(s, e, k);
      }
    }
  }

  lemma {:induction false} InvAlways(run: Run, k: nat)
    requires run.Valid() && k < |run.states|
    ensures Inv(run.states[k])
  {
    if k > 0 {
      InvAlways(run, k - 1);
      assert run.StepAt(k - 1);
      NextKeeps(run.states[k - 1], run.events[k - 1]);
    }
  }

  // The theorems

  /** Whatever the interleaving and whoever dies when, at most one live daemon has published the control
      socket, and the path is its own. */
  lemma OneLiveDaemon(run: Run, k: nat, p: nat, q: nat)
    requires run.Valid() && k < |run.states| && Live(run.states[k], p)
    ensures run.states[k].path == Some(p)
    ensures Live(run.states[k], q) ==> p == q
  {
    InvAlways(run, k);
  }

  /** A published socket stays its daemon's as long as the daemon lives: no step of any other process
      unlinks it, replaces it or lets another daemon come up. */
  lemma {:induction false} NeverUnlinked(run: Run, j: nat, k: nat, p: nat)
    requires run.Valid() && j <= k < |run.states| && Live(run.states[j], p)
    ensures Is(run.states[k], p, Dead) || (Live(run.states[k], p) && run.states[k].path == Some(p))
    decreases k
  {
    InvAlways(run, k);
    if j < k {
      NeverUnlinked(run, j, k - 1, p);
      assert run.StepAt(k - 1);
      InvAlways(run, k - 1);
      if p != run.events[k - 1].id {
        OtherKeeps(run.states[k - 1], run.events[k - 1], p);
      }
    }
  }

  /** A starting daemon steps aside exactly when a live one has published its socket. */
  lemma StepsAsideExactly(run: Run, k: nat, id: nat)
    requires run.Valid() && k < |run.events| && run.events[k] == Probe(id)
    ensures Is(run.states[k + 1], id, Dead) <==> exists p :: Live(run.states[k], p)
    ensures Is(run.states[k + 1], id, Dead) || Is(run.states[k + 1], id, Alone)
  {
    InvAlways(run, k);
    assert run.StepAt(k);
    if Answers(run.states[k]) {
      assert Live(run.states[k], run.states[k].path.value);
    }
  }

  /** The path a daemon clears is never taken again before it binds it, so clearing a stale socket is enough. */
  lemma BindSucceeds(run: Run, k: nat, id: nat)
    requires run.Valid() && k < |run.events| && run.events[k] == BindPath(id)
    ensures Is(run.states[k + 1], id, Named)
  {
    InvAlways(run, k);
    assert run.StepAt(k);
  }
}
