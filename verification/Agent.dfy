/** The agent that carries one request to the daemon (src/server/agent.rs, `obtain`). */
module Agent {
  import opened Bytes
  import opened Control
  import H = Handshake

  const POLLS := 40

  /** What a look at the spawned daemon finds. */
  datatype Status = Alive | ExitedWell | ExitedBadly | Unknown

  /** What the agent does to the world and what comes of it: a control socket with no listener, any other
      connect error, a connection, a request sent over it with its answer if one came, a spawn. */
  datatype Act =
    | Missed
    | DialError
    | Connected
    | Exchanged(request: Request, answer: Option<Response>)
    | Spawned(port: Option<u16>)
    | NotSpawned
    | Polled(status: Status)

  datatype Error =
    | ConnectFailed | ExchangeFailed | ConfigUnreadable | SpawnRefused | WaitFailed
    | DaemonExited | DidNotComeUp | NoDaemon

  /** The control socket and the process table, with everything done to them so far. */
  class World {
    var acts: seq<Act>

    constructor ()
      ensures acts == []
    {
      acts := [];
    }

    method Connect() returns (act: Act)
      modifies this
      ensures act == Missed || act == DialError || act == Connected
      ensures acts == old(acts) + [act]
    {
      if * {
        act := Missed;
      } else if * {
        act := DialError;
      } else {
        act := Connected;
      }
      acts := acts + [act];
    }

    /** The request goes out; the connection may break or time out before the answer. */
    method Exchange(request: Request) returns (answer: Option<Response>)
      modifies this
      ensures acts == old(acts) + [Exchanged(request, answer)]
    {
      answer := *;
      acts := acts + [Exchanged(request, answer)];
    }

    method Spawn(port: Option<u16>) returns (ok: bool)
      modifies this
      ensures acts == old(acts) + [if ok then Spawned(port) else NotSpawned]
    {
      ok := *;
      acts := acts + [if ok then Spawned(port) else NotSpawned];
    }

    method TryWait() returns (status: Status)
      modifies this
      ensures acts == old(acts) + [Polled(status)]
    {
      status := *;
      acts := acts + [Polled(status)];
    }
  }

  // What the agent may do, as a grammar of its acts

  /** One try: a request is sent only over a fresh connection, and nothing follows it. */
  predicate Try(acts: seq<Act>, wrapped: Request) {
    acts == [Missed] || acts == [DialError]
    || (|acts| == 2 && acts[0] == Connected && acts[1].Exchanged? && acts[1].request == wrapped)
  }

  predicate Hopeful(status: Status) {
    status == Alive || status == ExitedWell
  }

  /** At most `n` rounds of a try and, while nobody listens, a look at the daemon. */
  predicate Rounds(acts: seq<Act>, wrapped: Request, n: nat)
    decreases n
  {
    if n == 0 then acts == []
    else if acts == [] || acts[0] != Missed then Try(acts, wrapped)
    else
      && |acts| >= 2 && acts[1].Polled?
      && (if Hopeful(acts[1].status) then Rounds(acts[2..], wrapped, n - 1) else |acts| == 2)
  }

  /** All an agent does for a request, with the daemon's port to ask for if it must be started. */
  predicate Course(acts: seq<Act>, req: Request, wrapped: Request, port: Option<u16>) {
    || Try(acts, wrapped)
    || (req.Create? && acts == [Missed, NotSpawned])
    || (req.Create? && |acts| >= 2 && acts[..2] == [Missed, Spawned(port)] && Rounds(acts[2..], wrapped, POLLS))
  }

  /** What its last act means for the caller. */
  function Outcome(last: Act): Result<Response, Error> {
    match last
    case Exchanged(_, answer) => if answer.Some? then Ok(answer.value) else Err(ExchangeFailed)
    case DialError => Err(ConnectFailed)
    case NotSpawned => Err(SpawnRefused)
    case Polled(status) =>
      Err(if status == ExitedBadly then DaemonExited else if status == Unknown then WaitFailed else DidNotComeUp)
    case _ => Err(NoDaemon)
  }

  /** Without a daemon there are no sessions to list, and a start needs a readable configuration. */
  function Verdict(req: Request, last: Act): Result<Response, Error> {
    if last == Missed && req.Ls? then Ok(Listing(map[]))
    else if last == Missed && req.Create? then Err(ConfigUnreadable)
    else Outcome(last)
  }

  function Last(acts: seq<Act>): Act
    requires acts != []
  {
    acts[|acts| - 1]
  }

  // The program

  /** None means that nobody listens; once connected every failure is an error. */
  method TryRequestAt(w: World, wrapped: Request) returns (r: Result<Option<Response>, Error>)
    modifies w
    ensures old(w.acts) < w.acts && Try(w.acts[|old(w.acts)|..], wrapped)
    ensures r == Ok(None) <==> w.acts == old(w.acts) + [Missed]
    ensures r.Err? ==> Outcome(Last(w.acts)) == Err(r.error)
    ensures r.Ok? && r.value.Some? ==> Outcome(Last(w.acts)) == Ok(r.value.value)
  {
    ghost var before := w.acts;
    var act := w.Connect();
    assert w.acts[|before|..] == [act];
    if act == Missed {
      return Ok(None);
    }
    if act == DialError {
      return Err(ConnectFailed);
    }
    var answer := w.Exchange(wrapped);
    assert w.acts[|before|..] == [Connected, Exchanged(wrapped, answer)];
    r := if answer.Some? then Ok(answer) else Err(ExchangeFailed);
  }

  /** `i` rounds in which nobody listened and the daemon had not failed. */
  predicate Waited(acts: seq<Act>, i: nat)
    decreases i
  {
    if i == 0 then acts == []
    else |acts| >= 2 && acts[0] == Missed && acts[1].Polled? && Hopeful(acts[1].status) && Waited(acts[2..], i - 1)
  }

  lemma {:induction false} WaitedThen(acts: seq<Act>, i: nat, rest: seq<Act>, wrapped: Request, n: nat)
    requires Waited(acts, i) && i <= n && Rounds(rest, wrapped, n - i)
    ensures Rounds(acts + rest, wrapped, n)
    decreases i
  {
    if i == 0 {
      assert acts + rest == rest;
    } else {
      assert (acts + rest)[2..] == acts[2..] + rest;
      WaitedThen(acts[2..], i - 1, rest, wrapped, n - 1);
    }
  }

  lemma {:induction false} WaitedOneMore(acts: seq<Act>, i: nat, status: Status)
    requires Waited(acts, i) && Hopeful(status)
    ensures Waited(acts + [Missed, Polled(status)], i + 1)
    decreases i
  {
    if i == 0 {
      assert acts + [Missed, Polled(status)] == [Missed, Polled(status)];
    } else {
      assert (acts + [Missed, Polled(status)])[2..] == acts[2..] + [Missed, Polled(status)];
      WaitedOneMore(acts[2..], i - 1, status);
    }
  }

  lemma WaitedLast(acts: seq<Act>, i: nat)
    requires Waited(acts, i) && i > 0
    ensures acts != [] && Outcome(Last(acts)) == Err(DidNotComeUp)
    decreases i
  {
    if i > 1 {
      WaitedLast(acts[2..], i - 1);
    }
  }

  lemma NothingWaited()
    ensures Waited([], 0)
  {
  }

  /** A round in which somebody listened, or the daemon had failed, is the last one. */
  lemma LastRound(waited: seq<Act>, i: nat, round: seq<Act>, wrapped: Request, status: Status)
    requires Waited(waited, i) && i < POLLS
    requires (Try(round, wrapped) && round != [Missed]) || (round == [Missed, Polled(status)] && !Hopeful(status))
    ensures Rounds(waited + round, wrapped, POLLS) && Last(waited + round) == Last(round)
  {
    WaitedThen(waited, i, round, wrapped, POLLS);
  }

  lemma AllRounds(waited: seq<Act>, wrapped: Request)
    requires Waited(waited, POLLS)
    ensures Rounds(waited, wrapped, POLLS) && waited != [] && Outcome(Last(waited)) == Err(DidNotComeUp)
  {
    WaitedThen(waited, POLLS, [], wrapped, POLLS);
    assert waited + [] == waited;
    WaitedLast(waited, POLLS);
  }

  /** After `begun` the agent went through its rounds. */
  predicate Began(acts: seq<Act>, begun: seq<Act>, wrapped: Request) {
    begun < acts && Rounds(acts[|begun|..], wrapped, POLLS)
  }

  lemma BeganWith(begun: seq<Act>, rounds: seq<Act>, wrapped: Request)
    requires Rounds(rounds, wrapped, POLLS) && rounds != []
    ensures Began(begun + rounds, begun, wrapped) && Last(begun + rounds) == Last(rounds)
  {
    assert (begun + rounds)[|begun|..] == rounds;
  }

  method StartAndRequest(w: World, wrapped: Request, port: Option<u16>) returns (r: Result<Response, Error>)
    modifies w
    ensures old(w.acts) < w.acts && r == Outcome(Last(w.acts)) && Last(w.acts) != Missed
    ensures w.acts == old(w.acts) + [NotSpawned] || Began(w.acts, old(w.acts) + [Spawned(port)], wrapped)
  {
    hide Rounds, Waited, Began;
    var spawned := w.Spawn(port);
    if !spawned {
      return Err(SpawnRefused);
    }
    ghost var begun := w.acts;
    ghost var waited: seq<Act> := [];
    NothingWaited();
    assert begun + [] == begun;
    for i := 0 to POLLS
      invariant w.acts == begun + waited && Waited(waited, i)
    {
      ghost var before := w.acts;
      var tried := TryRequestAt(w, wrapped);
      if tried != Ok(None) {
        ghost var round := w.acts[|before|..];
        assert w.acts == before + round;
        LastRound(waited, i, round, wrapped, Alive);
        Associative(begun, waited, round);
        BeganWith(begun, waited + round, wrapped);
        return if tried.Ok? then Ok(tried.value.value) else Err(tried.error);
      }
      var status := w.TryWait();
      Associative(begun, waited, [Missed, Polled(status)]);
      assert before + [Missed] + [Polled(status)] == before + [Missed, Polled(status)];
      if !Hopeful(status) {
        LastRound(waited, i, [Missed, Polled(status)], wrapped, status);
        BeganWith(begun, waited + [Missed, Polled(status)], wrapped);
        return Err(if status == ExitedBadly then DaemonExited else WaitFailed);
      }
      WaitedOneMore(waited, i, status);
      waited := waited + [Missed, Polled(status)];
    }
    AllRounds(waited, wrapped);
    BeganWith(begun, waited, wrapped);
    r := Err(DidNotComeUp);
  }

  /** One request, start to end; `config` is the configured port, if the configuration can be read. */
  method Obtain(w: World, req: Request, port: Option<u16>, config: Option<Option<u16>>)
    returns (r: Result<Response, Error>)
    requires w.acts == []
    modifies w
    ensures w.acts != [] && r == Verdict(req, Last(w.acts))
    ensures Course(w.acts, req, Wrap(req, H.VERSION, port), if port.Some? || config.None? then port else config.value)
    ensures req.Create? && w.acts[0] == Missed ==> (|w.acts| > 1 <==> config.Some?)
  {
    hide Rounds;
    var wrapped := Wrap(req, H.VERSION, port);
    var tried := TryRequestAt(w, wrapped);
    assert w.acts[0..] == w.acts;
    if tried != Ok(None) {
      return if tried.Ok? then Ok(tried.value.value) else Err(tried.error);
    }
    if req.Create? {
      if config.None? {
        return Err(ConfigUnreadable);
      }
      r := StartAndRequest(w, wrapped, if port.Some? then port else config.value);
    } else if req.Ls? {
      r := Ok(Listing(map[]));
    } else {
      r := Err(NoDaemon);
    }
  }

  // What the grammar rules out

  lemma {:induction false} RoundsSubmitOnce(acts: seq<Act>, wrapped: Request, n: nat, i: nat)
    requires Rounds(acts, wrapped, n) && i < |acts|
    ensures acts[i] == Connected ==> i == |acts| - 2 && acts[i + 1].Exchanged?
    ensures acts[i].Exchanged? ==> i == |acts| - 1 && i > 0 && acts[i - 1] == Connected && acts[i].request == wrapped
    ensures !acts[i].Spawned? && !acts[i].NotSpawned?
    decreases n
  {
    if acts[0] == Missed && i >= 2 {
      RoundsSubmitOnce(acts[2..], wrapped, n - 1, i - 2);
    }
  }

  /** At most once: whatever listeners come and go and whatever fails or times out, the agent connects
      successfully at most once, as its last act but one. */
  lemma ConnectsOnce(acts: seq<Act>, req: Request, wrapped: Request, port: Option<u16>, i: nat)
    requires Course(acts, req, wrapped, port) && i < |acts|
    ensures acts[i] == Connected ==> i == |acts| - 2
  {
    if !Try(acts, wrapped) && i >= 2 {
      RoundsSubmitOnce(acts[2..], wrapped, POLLS, i - 2);
    }
  }

  /** It sends its request, wrapped, over that connection only, and does nothing after it. */
  lemma SubmitsOnce(acts: seq<Act>, req: Request, wrapped: Request, port: Option<u16>, i: nat)
    requires Course(acts, req, wrapped, port) && i < |acts|
    ensures acts[i].Exchanged? ==> i == |acts| - 1 && i > 0 && acts[i - 1] == Connected && acts[i].request == wrapped
  {
    if !Try(acts, wrapped) && i >= 2 {
      RoundsSubmitOnce(acts[2..], wrapped, POLLS, i - 2);
    }
  }

  /** It spawns at most one daemon, only to create a session, and only after it found nobody listening. */
  lemma SpawnsOnce(acts: seq<Act>, req: Request, wrapped: Request, port: Option<u16>, i: nat)
    requires Course(acts, req, wrapped, port) && i < |acts| && (acts[i].Spawned? || acts[i].NotSpawned?)
    ensures req.Create? && i == 1 && acts[0] == Missed
    ensures acts[i].Spawned? ==> acts[i].port == port
  {
    if i >= 2 {
      RoundsSubmitOnce(acts[2..], wrapped, POLLS, i - 2);
    }
  }

  /** The act is a look at the control socket, whatever it finds. */
  predicate IsLook(act: Act) {
    act == Missed || act == DialError || act == Connected
  }

  function Looks(acts: seq<Act>): nat {
    if acts == [] then 0 else (if IsLook(acts[0]) then 1 else 0) + Looks(acts[1..])
  }

  lemma LooksFirstTwo(acts: seq<Act>)
    requires |acts| >= 2 && !IsLook(acts[1])
    ensures Looks(acts) == (if IsLook(acts[0]) then 1 else 0) + Looks(acts[2..])
  {
    assert acts[1..][0] == acts[1] && acts[1..][1..] == acts[2..];
  }

  lemma {:induction false} RoundsBounded(acts: seq<Act>, wrapped: Request, n: nat)
    requires Rounds(acts, wrapped, n)
    ensures Looks(acts) <= n
    decreases n
  {
    if |acts| >= 2 {
      LooksFirstTwo(acts);
      if acts[0] == Missed && Hopeful(acts[1].status) {
        RoundsBounded(acts[2..], wrapped, n - 1);
      } else {
        assert acts[2..] == [];
      }
    }
  }

  /** It gives up: at most 41 looks at the socket, whatever they find. */
  lemma GivesUp(acts: seq<Act>, req: Request, wrapped: Request, port: Option<u16>)
    requires Course(acts, req, wrapped, port)
    ensures Looks(acts) <= POLLS + 1
  {
    if |acts| >= 2 {
      assert acts[1] == acts[..2][1];
      LooksFirstTwo(acts);
      if |acts| > 2 {
        RoundsBounded(acts[2..], wrapped, POLLS);
      }
    }
  }
}
