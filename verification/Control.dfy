/** The daemon's control operations (src/server/daemon.rs, `execute_control`), the guards around them and the
    wrapping the agent builds (src/server/agent.rs, `obtain`). */
module Control {
  import opened Bytes
  import opened Session
  import H = Handshake

  datatype Request =
    | OnProtocol(version: byte, request: Request)
    | OnPort(port: u16, request: Request)
    | Create(cols: u16, rows: u16)
    | Attach(id: H.Text)
    | Ls
    | Kill(id: H.Text)

  datatype Why = WrongPort(expected: u16) | VersionMismatch | SpawnFailed | NoSession | SessionEnded | SessionBusy

  datatype Response =
    | Bootstrap(port: u16, id: H.Text, psk: Psk)
    | Listing(busy: map<H.Text, bool>)
    | Done
    | Refused(why: Why)

  // The guards, as a specification

  predicate Guarded(req: Request) {
    req.OnProtocol? || req.OnPort?
  }

  /** The operation inside all guards. */
  function Inner(req: Request): (op: Request)
    ensures !Guarded(op)
  {
    if Guarded(req) then Inner(req.request) else req
  }

  /** Operations that make a client speak the terminal protocol. */
  predicate NeedsProtocol(op: Request) {
    op.Create? || op.Attach?
  }

  datatype Guard = Version(v: byte) | Port(p: u16)

  /** The guards from the outside in. */
  function Guards(req: Request): seq<Guard> {
    match req
    case OnProtocol(version, request) => [Version(version)] + Guards(request)
    case OnPort(port, request) => [Port(port)] + Guards(request)
    case _ => []
  }

  predicate Matches(g: Guard, port: u16) {
    match g
    case Version(v) => v == H.VERSION
    case Port(p) => p == port
  }

  /** Every port and version matches, and a session is created or attached to only under a version guard. */
  ghost predicate Allowed(req: Request, port: u16) {
    && (forall i :: 0 <= i < |Guards(req)| ==> Matches(Guards(req)[i], port))
    && (NeedsProtocol(Inner(req)) ==> exists i :: 0 <= i < |Guards(req)| && Guards(req)[i].Version?)
  }

  function Complaint(g: Guard): Why {
    match g
    case Version(_) => VersionMismatch
    case Port(p) => WrongPort(p)
  }

  /** `why` names the outermost guard that does not match, or the version guard that is missing. */
  ghost predicate RefusalOf(req: Request, port: u16, why: Why) {
    var guards := Guards(req);
    if forall i :: 0 <= i < |guards| ==> Matches(guards[i], port) then why == VersionMismatch
    else
      exists k :: 0 <= k < |guards| && !Matches(guards[k], port) && why == Complaint(guards[k])
        && forall i :: 0 <= i < k ==> Matches(guards[i], port)
  }

  lemma SameGuardsAllowed(a: Request, b: Request, port: u16)
    requires Inner(a) == Inner(b)
    requires forall g :: g in Guards(a) <==> g in Guards(b)
    ensures Allowed(a, port) ==> Allowed(b, port)
  {
    if Allowed(a, port) {
      forall i | 0 <= i < |Guards(b)|
        ensures Matches(Guards(b)[i], port)
      {
        assert Guards(b)[i] in Guards(a);
      }
      if NeedsProtocol(Inner(a)) {
        var i :| 0 <= i < |Guards(a)| && Guards(a)[i].Version?;
        assert Guards(a)[i] in Guards(b);
      }
    }
  }

  /** Only which guards there are matters, not their order, their number or their nesting. */
  lemma OrderIrrelevant(a: Request, b: Request, port: u16)
    requires Inner(a) == Inner(b)
    requires forall g :: g in Guards(a) <==> g in Guards(b)
    ensures Allowed(a, port) <==> Allowed(b, port)
  {
    SameGuardsAllowed(a, b, port);
    SameGuardsAllowed(b, a, port);
  }

  // The agent's wrapping

  /** What an agent of protocol `version` makes of a request, given the port its caller asked for. */
  function Wrap(req: Request, version: byte, port: Option<u16>): Request {
    var checked := if NeedsProtocol(req) then OnProtocol(version, req) else req;
    if port.Some? then OnPort(port.value, checked) else checked
  }

  /** The wrapping is transparent exactly when what it adds matches: the requested port, if any, is the
      daemon's, and the version of an agent that wants a session is the daemon's. */
  lemma WrapTransparent(req: Request, version: byte, asked: Option<u16>, port: u16)
    ensures Inner(Wrap(req, version, asked)) == Inner(req)
    ensures !Guarded(req) ==>
      (Allowed(Wrap(req, version, asked), port) <==>
        (asked.Some? ==> asked.value == port) && (NeedsProtocol(req) ==> version == H.VERSION))
  {
    var wrapped := Wrap(req, version, asked);
    if !Guarded(req) {
      assert Guards(req) == [];
      var inner := if NeedsProtocol(req) then [Version(version)] else [];
      var guards := if asked.Some? then [Port(asked.value)] + inner else inner;
      assert Guards(wrapped) == guards;
      assert NeedsProtocol(req) ==> guards[|guards| - 1] == Version(version);
      assert asked.Some? ==> guards[0] == Port(asked.value);
    }
  }

  // The daemon

  class Registry {
    var table: map<H.Text, SessionShared>

    constructor ()
      ensures table == map[]
    {
      table := map[];
    }

    method Insert(id: H.Text, session: SessionShared)
      modifies this
      ensures table == old(table)[id := session]
    {
      table := table[id := session];
    }

    method Remove(id: H.Text)
      modifies this
      ensures table == old(table) - {id}
    {
      table := table - {id};
    }
  }

  /** `mark_ended`: the first caller takes the session out of the registry. */
  method MarkEnded(registry: Registry, id: H.Text, session: SessionShared)
    modifies registry, session`ended
    ensures session.ended
    ensures registry.table == if old(session.ended) then old(registry.table) else old(registry.table) - {id}
  {
    var first := session.MarkEnded();
    if first {
      registry.Remove(id);
    }
  }

  /** What the operating system and the random source contribute to a request. */
  datatype Chance = Chance(ids: seq<H.Text>, spawns: bool, key: Psk, shellExits: bool)

  /** Some drawn id is unused. */
  ghost predicate SomeFree(ids: seq<H.Text>, registry: Registry)
    reads registry
  {
    exists i :: 0 <= i < |ids| && ids[i] !in registry.table
  }

  method NewSessionId(registry: Registry, ids: seq<H.Text>) returns (id: H.Text)
    requires SomeFree(ids, registry)
    ensures id in ids && id !in registry.table
  {
    var i := 0;
    while ids[i] in registry.table
      invariant i < |ids| && forall j :: 0 <= j < i ==> ids[j] in registry.table
      decreases |ids| - i
    {
      i := i + 1;
    }
    id := ids[i];
  }

  /** The session's threads start before it is registered, so it can be in the table already ended. */
  method SpawnSession(id: H.Text, cols: u16, rows: u16, ringBytes: nat, registry: Registry, chance: Chance)
    returns (session: Option<SessionShared>)
    requires id !in registry.table
    modifies registry
    ensures session.None? <==> !chance.spawns
    ensures session.None? ==> registry.table == old(registry.table)
    ensures session.Some? ==>
      && var s := session.value;
      && registry.table == old(registry.table)[id := s] && fresh(s)
      && s.Valid() && s.cols == cols && s.rows == rows && s.psk == chance.key && s.ring.cap == ringBytes
      && s.ended == chance.shellExits && !s.connected
  {
    if !chance.spawns {
      return None;
    }
    var s := new SessionShared(cols, rows, ringBytes, chance.key);
    if chance.shellExits {
      MarkEnded(registry, id, s);
      assert registry.table == old(registry.table);
    }
    registry.Insert(id, s);
    session := Some(s);
  }

  // What an operation does

  /** No such session is touched, but for those excepted. */
  twostate predicate Untouched(sessions: set<SessionShared>, except: set<SessionShared>)
    reads sessions
  {
    forall s :: s in sessions && s !in except ==> unchanged(s)
  }

  /** A terminal is never opened with a zero dimension. */
  twostate predicate Created(cols: u16, rows: u16, registry: Registry, port: u16, ringBytes: nat, chance: Chance,
                             response: Response)
    reads registry, registry.table.Values
  {
    && response.Bootstrap? && response.port == port && response.psk == chance.key
    && response.id !in old(registry.table) && response.id in registry.table
    && var s := registry.table[response.id];
    && registry.table == old(registry.table)[response.id := s] && fresh(s)
    && s.cols == Max(cols, 1) && s.rows == Max(rows, 1)
    && s.psk == chance.key && s.ring.cap == ringBytes && s.ended == chance.shellExits && !s.connected
  }

  /** Attaching to a session hands out a new key, and only a session that lives and is not busy can be attached to. */
  twostate predicate Attached(id: H.Text, registry: Registry, before: set<SessionShared>, port: u16, chance: Chance,
                              response: Response)
    reads registry, before
  {
    && registry.table == old(registry.table) && before == registry.table.Values
    && if id !in registry.table then response == Refused(NoSession) && Untouched(before, {})
       else
         var s := registry.table[id];
         if old(s.ended) then response == Refused(SessionEnded) && Untouched(before, {})
         else if old(s.connected) then response == Refused(SessionBusy) && Untouched(before, {})
         else
           && response == Bootstrap(port, id, chance.key) && s.psk == chance.key
           && !s.ended && !s.connected && s.activeEpoch == old(s.activeEpoch) && s.killed == old(s.killed)
           && Untouched(before, {s})
  }

  twostate predicate Killed(id: H.Text, registry: Registry, before: set<SessionShared>, response: Response)
    reads registry, before
  {
    && registry.table == old(registry.table) && before == registry.table.Values
    && if id !in registry.table then response == Refused(NoSession) && Untouched(before, {})
       else
         var s := registry.table[id];
         && response == Done && s.killed && s.psk == old(s.psk) && s.ended == old(s.ended)
         && s.connected == old(s.connected) && s.activeEpoch == old(s.activeEpoch)
         && Untouched(before, {s})
  }

  /** The effect of an operation; `before` are the sessions registered when it starts. */
  twostate predicate Performed(op: Request, registry: Registry, before: set<SessionShared>, port: u16, ringBytes: nat,
                               chance: Chance, response: Response)
    reads registry, before, registry.table.Values
  {
    match op
    case Create(cols, rows) =>
      && Untouched(before, {})
      && if chance.spawns then Created(cols, rows, registry, port, ringBytes, chance, response)
         else response == Refused(SpawnFailed) && registry.table == old(registry.table)
    case Attach(id) => Attached(id, registry, before, port, chance, response)
    case Kill(id) => Killed(id, registry, before, response)
    case Ls =>
      && registry.table == old(registry.table) && before == registry.table.Values && Untouched(before, {})
      && response == Listing(map id | id in registry.table :: registry.table[id].connected && !registry.table[id].ended)
    case _ => false
  }

  method DoAttach(id: H.Text, registry: Registry, port: u16, chance: Chance) returns (response: Response)
    modifies registry.table.Values
    ensures Attached(id, registry, old(registry.table.Values), port, chance, response)
  {
    if id !in registry.table {
      return Refused(NoSession);
    }
    var s := registry.table[id];
    if s.ended {
      return Refused(SessionEnded);
    }
    var busy := s.IsBusy();
    if busy {
      return Refused(SessionBusy);
    }
    var key := s.RotatePsk(chance.key);
    response := Bootstrap(port, id, key);
  }

  method DoKill(id: H.Text, registry: Registry) returns (response: Response)
    modifies registry.table.Values
    ensures Killed(id, registry, old(registry.table.Values), response)
  {
    if id !in registry.table {
      return Refused(NoSession);
    }
    registry.table[id].Kill();
    response := Done;
  }

  method DoCreate(cols: u16, rows: u16, registry: Registry, port: u16, ringBytes: nat, chance: Chance)
    returns (response: Response)
    requires SomeFree(chance.ids, registry)
    modifies registry
    ensures Untouched(old(registry.table.Values), {})
    ensures chance.spawns ==> Created(cols, rows, registry, port, ringBytes, chance, response)
    ensures !chance.spawns ==> response == Refused(SpawnFailed) && registry.table == old(registry.table)
  {
    var id := NewSessionId(registry, chance.ids);
    var session := SpawnSession(id, Max(cols, 1), Max(rows, 1), ringBytes, registry, chance);
    response := if session.Some? then Bootstrap(port, id, session.value.psk) else Refused(SpawnFailed);
  }

  method Perform(op: Request, registry: Registry, port: u16, ringBytes: nat, chance: Chance)
    returns (response: Response)
    requires !Guarded(op) && SomeFree(chance.ids, registry)
    modifies registry, registry.table.Values
    ensures Performed(op, registry, old(registry.table.Values), port, ringBytes, chance, response)
  {
    match op {
      case Create(cols, rows) => response := DoCreate(cols, rows, registry, port, ringBytes, chance);
      case Attach(id) => response := DoAttach(id, registry, port, chance);
      case Kill(id) => response := DoKill(id, registry);
      case Ls =>
        response := Listing(map id | id in registry.table :: registry.table[id].connected && !registry.table[id].ended);
    }
  }

  // The guard loop

  /** The guards unwrapped so far all match. */
  ghost predicate Unwrapped(request: Request, port: u16, passed: seq<Guard>, req: Request) {
    && Guards(request) == passed + Guards(req) && Inner(request) == Inner(req)
    && forall i :: 0 <= i < |passed| ==> Matches(passed[i], port)
  }

  ghost predicate SomeVersion(guards: seq<Guard>) {
    exists i :: 0 <= i < |guards| && guards[i].Version?
  }

  lemma PassesGuard(request: Request, port: u16, passed: seq<Guard>, req: Request, g: Guard)
    requires Unwrapped(request, port, passed, req) && Guarded(req) && Guards(req) == [g] + Guards(req.request)
    ensures Matches(g, port) ==> Unwrapped(request, port, passed + [g], req.request)
    ensures !Matches(g, port) ==> !Allowed(request, port) && RefusalOf(request, port, Complaint(g))
    ensures SomeVersion(passed + [g]) <==> SomeVersion(passed) || g.Version?
  {
    Associative(passed, [g], Guards(req.request));
    assert Guards(request)[|passed|] == g;
    assert (passed + [g])[|passed|] == g;
    if SomeVersion(passed) {
      var i :| 0 <= i < |passed| && passed[i].Version?;
      assert (passed + [g])[i].Version?;
    }
  }

  lemma AllPassed(request: Request, port: u16, passed: seq<Guard>, req: Request)
    requires Unwrapped(request, port, passed, req) && !Guarded(req)
    ensures Inner(request) == req
    ensures Allowed(request, port) <==> !NeedsProtocol(req) || SomeVersion(passed)
    ensures !Allowed(request, port) ==> RefusalOf(request, port, VersionMismatch)
  {
    assert Guards(request) == passed;
  }

  lemma NothingPassed(request: Request, port: u16)
    ensures Unwrapped(request, port, [], request) && !SomeVersion([])
  {
  }

  /** The inner operation is performed exactly when every guard matches and a session operation has a version
      guard; a refused request names the outermost mismatch and touches nothing. */
  method ExecuteControl(request: Request, registry: Registry, port: u16, ringBytes: nat, chance: Chance)
    returns (response: Response)
    requires SomeFree(chance.ids, registry)
    modifies registry, registry.table.Values
    ensures Allowed(request, port) ==>
      Performed(Inner(request), registry, old(registry.table.Values), port, ringBytes, chance, response)
    ensures !Allowed(request, port) ==>
      && response.Refused? && RefusalOf(request, port, response.why)
      && registry.table == old(registry.table) && Untouched(old(registry.table.Values), {})
  {
    hide Allowed, RefusalOf, Unwrapped, SomeVersion;
    var req, protocolChecked := request, false;
    ghost var passed: seq<Guard> := [];
    NothingPassed(request, port);
    while Guarded(req)
      invariant Unwrapped(request, port, passed, req) && (protocolChecked <==> SomeVersion(passed))
      modifies {}
      decreases req
    {
      match req {
        case OnPort(expected, inner) =>
          PassesGuard(request, port, passed, req, Port(expected));
          if expected != port {
            return Refused(WrongPort(expected));
          }
          passed := passed + [Port(expected)];
          req := inner;
        case OnProtocol(version, inner) =>
          PassesGuard(request, port, passed, req, Version(version));
          if version != H.VERSION {
            return Refused(VersionMismatch);
          }
          passed := passed + [Version(version)];
          protocolChecked := true;
          req := inner;
      }
    }
    AllPassed(request, port, passed, req);
    if !protocolChecked && NeedsProtocol(req) {
      return Refused(VersionMismatch);
    }
    response := Perform(req, registry, port, ringBytes, chance);
  }
}
