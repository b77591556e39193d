/** One session, its server threads, every connection to it and one client, as a
    transition system. A step is one lock-protected operation, one atomic instruction,
    one frame written or one frame received, so every interleaving of the source's
    threads and tasks is a run of it. */
module Protocol {
  import opened Bytes
  import opened ReplayRing
  import opened Frames
  import opened ClientOutput

  /** The absolute output total fits the wire's 64-bit offset. */
  type BoundedRing = r: Ring | r.Total() < U64_LIMIT witness Ring([], 0, 0)

  /** What travels from server to client, in order. `Final` is the Ended record, annotated with the total
      its writer saw at its last read and whether the PTY reader had finished by then. */
  datatype Message =
    | ReplyOk(total: nat)
    | ReplyNoSession
    | ReplyBadOffset
    | Record(frame: Frame)
    | Final(seen: nat, drained: bool)

  /** Where a connection's server task stands: the handshake, `become_active`, the writer loop, `leave`. */
  datatype Pc =
    | Hailed | Found | Replied | Authed
    | Entering
    | Top | Current | Registered | Emitting(frame: Frame) | Checking | Finishing | Parked
    | Exiting | Leaving | Gone

  /** A connection as the server holds it: `waiter` is the enabled wakeup, `sent` the end of the last frame
      written. Auxiliary: `seen` and `drained` record the last read, `late` counts the frames written after
      the connection was superseded. */
  datatype Conn = Conn(
    offset: nat, pc: Pc, helloed: bool, epoch: nat, cursor: nat, sent: nat, seen: nat, drained: bool,
    waiter: Option<bool>, queue: seq<Message>, cut: bool, late: nat)

  /** A thread that ends with a notification: the PTY reader or the reaper. */
  datatype Producer = Running | Dirty | Swapped | Stopped

  datatype Who = Reader | Reaper

  /** The thread has left its loop: the PTY reader appends nothing any more. */
  predicate Finished(p: Producer) {
    p == Swapped || p == Stopped
  }

  datatype Reason =
    | SessionEnded(total: nat, drained: bool)
    | Detached
    | OutputFailed(frame: Frame)
    | NoSession
    | BadOffset
    | ProtocolError
    | NeverEstablished

  datatype Phase = Offline | AwaitReply(id: nat) | AwaitHello(id: nat) | Streaming(id: nat) | Over(reason: Reason)

  /** The client: its phase, whether it was ever connected, its committed offset and log, its terminal. */
  datatype Client = Client(
    phase: Phase, established: bool, received: nat, log: seq<Item>, terminal: seq<byte>, notice: Wording)

  /** The session and its connections. Auxiliary: `history`, every byte ever appended. */
  datatype Server = Server(
    history: seq<byte>, ring: BoundedRing, ended: bool, active: nat, connected: bool,
    reader: Producer, reaper: Producer, conns: map<nat, Conn>)

  datatype State = State(server: Server, client: Client)

  /** What a connection's server task can do next. */
  datatype Step =
    | Lookup | Reply | Auth | Refuse
    | Enter | Activate
    | Check | Register | Read | Write(ok: bool) | CheckEnded | Finish(ok: bool) | Wake | Beat(ping: bool, ok: bool)
    | Cancel | LeaveCheck | LeaveStore
    | Cut(keep: nat)

  datatype Event =
    | Produce(bytes: seq<byte>)
    | Swap(who: Who)
    | Notify(who: Who)
    | Dial(id: nat)
    | Stranger(id: nat, offset: nat)
    | Serve(id: nat, step: Step)
    | Receive(failAt: Option<nat>)
    | Drop
    | Detach

  function Init(cap: nat, notice: Wording): State {
    State(Server([], Ring([], 0, cap), false, 0, false, Running, Running, map[]),
          Client(Offline, false, 0, [], [], notice))
  }

  function NewConn(offset: nat): Conn {
    Conn(offset, Hailed, false, 0, offset, offset, 0, false, None, [], false, 0)
  }

  function ProducerOf(s: Server, who: Who): Producer {
    if who.Reader? then s.reader else s.reaper
  }

  function WithProducer(s: Server, who: Who, p: Producer): Server {
    if who.Reader? then s.(reader := p) else s.(reaper := p)
  }

  /** A frame written to a connection the network already lost goes nowhere. */
  function Send(c: Conn, m: Message): Conn {
    if c.cut then c else c.(queue := c.queue + [m])
  }

  /** Every enabled waiter is woken; nothing is stored for later ones. */
  function Awaken(c: Conn): Conn {
    if c.waiter.Some? then c.(waiter := Some(true)) else c
  }

  predicate Linked(phase: Phase) {
    phase.AwaitReply? || phase.AwaitHello? || phase.Streaming?
  }

  predicate StepEnabled(c: Conn, step: Step) {
    match step
    case Lookup => c.pc == Hailed
    case Reply => c.pc == Found
    case Auth => c.pc == Replied && c.helloed
    case Refuse => c.pc == Hailed || c.pc == Found || c.pc == Replied || c.pc == Authed
    case Enter => c.pc == Authed
    case Activate => c.pc == Entering
    case Check => c.pc == Top
    case Register => c.pc == Current
    case Read => c.pc == Registered
    case Write(_) => c.pc.Emitting?
    case CheckEnded => c.pc == Checking
    case Finish(_) => c.pc == Finishing
    case Wake => c.pc == Parked && c.waiter == Some(true)
    case Beat(_, _) => c.pc == Parked
    case Cancel => c.pc == Top || c.pc.Emitting? || c.pc == Finishing || c.pc == Parked
    case LeaveCheck => c.pc == Exiting
    case LeaveStore => c.pc == Leaving
    case Cut(keep) => keep <= |c.queue|
  }

  /** What the writer does with the chunk it read: an empty frame can still report a gap. */
  function AfterRead(c: Conn, offset: u64, data: seq<byte>): Conn {
    if data != [] || offset > c.cursor then
      c.(pc := Emitting(Output(offset, data)), cursor := offset + |data|)
    else
      c.(pc := Checking)
  }

  /** The effect of a step on its own connection. */
  function StepConn(s: Server, c: Conn, step: Step): Conn
    requires StepEnabled(c, step)
  {
    var late := if s.active == c.epoch then c.late else c.late + 1;
    match step
    case Lookup =>
      if s.ended then Send(c, ReplyNoSession).(pc := Gone) else c.(pc := Found)
    case Reply =>
      var total := s.ring.Total();
      if c.offset > total then Send(c, ReplyBadOffset).(pc := Gone) else Send(c, ReplyOk(total)).(pc := Replied)
    case Auth => Send(c, Record(Hello)).(pc := Authed)
    case Refuse => c.(pc := Gone)
    case Enter => c.(pc := Entering, epoch := s.active + 1)
    case Activate => c.(pc := Top)
    case Check => c.(pc := if s.active == c.epoch then Current else Exiting)
    case Register => c.(pc := Registered, waiter := Some(false))
    case Read =>
      var (offset, data) := s.ring.ReadFrom(c.cursor);
      AfterRead(c.(seen := s.ring.Total(), drained := Finished(s.reader)), offset, data)
    case Write(ok) =>
      if ok then Send(c, Record(c.pc.frame)).(pc := Top, sent := c.cursor, waiter := None, late := late)
      else c.(pc := Exiting, waiter := None)
    case CheckEnded => c.(pc := if s.ended then Finishing else Parked)
    case Finish(ok) =>
      if ok then Send(c, Final(c.seen, c.drained)).(pc := Exiting, waiter := None, late := late)
      else c.(pc := Exiting, waiter := None)
    case Wake => c.(pc := Top, waiter := None)
    case Beat(ping, ok) =>
      if ok then Send(c, Record(if ping then Ping else Pong)).(pc := Top, waiter := None, late := late)
      else c.(pc := Exiting, waiter := None)
    case Cancel => c.(pc := Exiting, waiter := None)
    case LeaveCheck => c.(pc := if s.active == c.epoch then Leaving else Gone)
    case LeaveStore => c.(pc := Gone)
    case Cut(keep) => c.(queue := c.queue[..keep], cut := true)
  }

  /** The effect of a step on the session: the epoch counter and the busy flag. */
  function StepShared(s: Server, c: Conn, step: Step): Server {
    match step
    case Enter => s.(active := s.active + 1)
    case Activate => s.(connected := true)
    case LeaveStore => s.(connected := false)
    case _ => s
  }

  predicate Enabled(s: State, e: Event) {
    var phase, server := s.client.phase, s.server;
    match e
    case Produce(bytes) => server.reader == Running && 0 < |bytes| && server.ring.Total() + |bytes| < U64_LIMIT
    case Swap(who) => ProducerOf(server, who) == Running
    case Notify(who) => ProducerOf(server, who) == Dirty || ProducerOf(server, who) == Swapped
    case Dial(id) => phase == Offline && id !in server.conns
    case Stranger(id, _) => id !in server.conns
    case Serve(id, step) => id in server.conns && StepEnabled(server.conns[id], step)
    case Receive(_) => Linked(phase) && phase.id in server.conns && server.conns[phase.id].queue != []
    case Drop => Linked(phase)
    case Detach => phase.Streaming?
  }

  /** Showing and committing one Output frame (`SessionOutput.Accept`). */
  function Show(c: Client, offset: u64, data: seq<byte>, failAt: Option<nat>): Client {
    if offset + |data| >= U64_LIMIT then c.(phase := Over(ProtocolError))
    else if offset + |data| <= c.received then c
    else
      var text := FrameText(c.received, offset, data, c.notice);
      if failAt.Some? then
        c.(phase := Over(Reason.OutputFailed(Output(offset, data))),
           terminal := c.terminal + text[..Min(failAt.value, |text|)])
      else
        c.(received := offset + |data|, log := c.log + AcceptItems(c.received, offset, data),
           terminal := c.terminal + text)
  }

  /** A network failure: final before the first established connection, otherwise a blip. */
  function Disconnect(c: Client): Client {
    if c.phase.Streaming? then c.(phase := Offline, established := true)
    else if c.established then c.(phase := Offline)
    else c.(phase := Over(NeverEstablished))
  }

  /** What the client does with the next message of its connection; `failAt` is the number of
      terminal bytes after which showing an Output frame fails, if it does. */
  function Deliver(c: Client, m: Message, failAt: Option<nat>): Client
    requires Linked(c.phase)
  {
    if c.phase.AwaitReply? then
      match m
      case ReplyOk(total) => c.(phase := if c.received > total then Over(BadOffset) else AwaitHello(c.phase.id))
      case ReplyNoSession => c.(phase := Over(NoSession))
      case ReplyBadOffset => c.(phase := Over(BadOffset))
      case _ => Disconnect(c)
    else if c.phase.AwaitHello? then
      c.(phase := if m == Record(Hello) then Streaming(c.phase.id) else Over(ProtocolError))
    else
      match m
      case Record(Output(offset, data)) => Show(c, offset, data, failAt)
      case Record(Ping) => c
      case Record(Pong) => c
      case Final(seen, drained) => c.(phase := Over(SessionEnded(seen, drained)))
      case _ => c.(phase := Over(ProtocolError))
  }

  /** The next message leaves the wire; an accepted greeting is answered with the client's own hello. */
  function Take(s: Server, id: nat, hello: bool): Server
    requires id in s.conns && s.conns[id].queue != []
  {
    var c := s.conns[id];
    s.(conns := s.conns[id := c.(queue := c.queue[1..], helloed := c.helloed || hello)])
  }

  function Hail(s: Server, id: nat, c: Conn): Server {
    s.(conns := s.conns[id := c])
  }

  /** The steps of the session's own threads and connection tasks. */
  function ServerNext(s: Server, e: Event): Server
    requires e.Produce? || e.Swap? || e.Notify? || e.Serve?
    requires e.Produce? ==> s.ring.Total() + |e.bytes| < U64_LIMIT
    requires e.Serve? ==> e.id in s.conns && StepEnabled(s.conns[e.id], e.step)
  {
    match e
    case Produce(bytes) =>
      s.(history := s.history + bytes, ring := s.ring.Append(bytes), reader := Dirty)
    case Swap(who) =>
      WithProducer(s, who, if s.ended then Stopped else Swapped).(ended := true)
    case Notify(who) =>
      WithProducer(s, who, if ProducerOf(s, who) == Dirty then Running else Stopped)
        .(conns := map id | id in s.conns :: Awaken(s.conns[id]))
    case Serve(id, step) =>
      StepShared(s, s.conns[id], step).(conns := s.conns[id := StepConn(s, s.conns[id], step)])
  }

  function Next(s: State, e: Event): State
    requires Enabled(s, e)
  {
    match e
    case Dial(id) =>
      State(Hail(s.server, id, NewConn(s.client.received)), s.client.(phase := AwaitReply(id)))
    case Stranger(id, offset) =>
      s.(server := Hail(s.server, id, NewConn(offset).(helloed := true)))
    case Receive(failAt) =>
      var id := s.client.phase.id;
      var m := s.server.conns[id].queue[0];
      var client := Deliver(s.client, m, failAt);
      State(Take(s.server, id, s.client.phase.AwaitReply? && client.phase.AwaitHello?), client)
    case Drop => s.(client := Disconnect(s.client))
    case Detach => s.(client := s.client.(phase := Over(Detached)))
    case _ => s.(server := ServerNext(s.server, e))
  }

  /** A run: the states passed through and the events between them. */
  datatype Run = Run(states: seq<State>, events: seq<Event>) {
    ghost predicate StepAt(i: nat) {
      i < |events| && i + 1 < |states| && Enabled(states[i], events[i]) && states[i + 1] == Next(states[i], events[i])
    }

    /** A possible run of a session with that ring capacity. */
    ghost predicate Valid(cap: nat, notice: Wording) {
      && |states| == |events| + 1 && states[0] == Init(cap, notice)
      && forall i: nat :: i < |events| ==> StepAt(i)
    }

    function Last(): State
      requires states != []
    {
      states[|states| - 1]
    }

    function Then(e: Event): Run
      requires states != [] && Enabled(Last(), e)
    {
      Run(states + [Next(Last(), e)], events + [e])
    }
  }

  function Start(cap: nat, notice: Wording): Run {
    Run([Init(cap, notice)], [])
  }

  /** A step of a run. */
  lemma StepOf(cap: nat, notice: Wording, run: Run, k: nat)
    requires run.Valid(cap, notice) && 0 < k < |run.states|
    ensures k - 1 < |run.events| && Enabled(run.states[k - 1], run.events[k - 1])
    ensures run.states[k] == Next(run.states[k - 1], run.events[k - 1]) && run.StepAt(k - 1)
  {
    assert run.StepAt(k - 1);
  }

  /** One more step of a run. */
  lemma Extend(cap: nat, notice: Wording, run: Run, e: Event)
    requires run.Valid(cap, notice) && Enabled(run.Last(), e)
    ensures run.Then(e).Valid(cap, notice) && run.Then(e).Last() == Next(run.Last(), e)
  {
    var next := run.Then(e);
    forall i: nat | i < |next.events|
      ensures next.StepAt(i)
    {
      assert i < |run.events| ==> run.StepAt(i);
    }
  }
}
