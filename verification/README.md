# Verification of thther's resume protocol

thther keeps a remote terminal alive over TCP. The server appends everything a shell prints to an evicting
ring, indexed by absolute output offset; each connection walks a cursor over that ring and sends `Output`
frames; the client shows them, commits the offset it has shown, and asks for the rest when it reconnects.
This project models that protocol and the machines around it, and proves what they promise.

- `Ring.dfy`, `Output.dfy`: the replay ring and the client's terminal, as classes updated in place and as the
  values they stand for.
- `Protocol.dfy`: one session, its PTY reader and reaper, any number of connections and one client as a
  transition system. A step is one lock-protected operation, one atomic instruction, one frame written or
  received, or a loss of the network; a run is a list of states joined by enabled steps. `Replay.dfy`
  (exact resume), `Wakeup.dfy` (no lost wakeup), `CatchUp.dfy` (delivery can always be completed),
  `Recovery.dfy` (when a broken connection can be made good), `EndOfSession.dfy` (what `Ended` promises) and `Takeover.dfy` (epochs and the busy flag) prove theorems
  about every state of every run.
- `Session.dfy`, `Writer.dfy`: the shared session object and the writer loop as imperative code that other
  threads interfere with.
- `Frames.dfy`, `Crypto.dfy`, `Records.dfy`, `Handshake.dfy`: the codecs, the counter discipline over an ideal
  AEAD, the record stream under cuts and tampering, the plaintext handshake.
- `Reconnect.dfy`, `Keyboard.dfy`: the client's reader, its connection attempts and retry loop over the bytes
  that arrive, and its keyboard side with the detach sequence.
- `Control.dfy`, `Attaching.dfy`, `Agent.dfy`, `Startup.dfy`, `Reaping.dfy`: guarded control requests, concurrent
  attaches, the agent's at-most-once submission, the exclusive start of daemons, and how a session leaves the
  registry.
- `Bytes.dfy`, `Streams.dfy`: integers, positional encodings, and streams that may fail at any byte.

Check everything with `dafny verify --resource-limit 2000000 dfyconfig.toml`.

## Findings

Six statements one might make about the code are false. Each is kept as the code has it, shown by a concrete run
or input, and replaced by the exact condition.

- `README.md:48` says a second attach is rejected only while a connection is active. `become_active` and
  `leave` are two atomic instructions each, so the busy flag can be wrong after every method has returned:
  `Takeover.StaleLeaveClearsBusy` and `Takeover.StaleEntryLeavesBusy` are such runs. A holder's own store always
  puts the flag right (`Takeover.OwnStore`), and from there it can go wrong exactly when a superseded connection
  stands between the two instructions (`Takeover.BusyExactly`). With each method as one step the flag is always
  right (`Session.SessionShared.BecomeActive`, `Leave`, `IsBusy`).
- `Ended` does not mean that the client has all output. The reaper can mark the session ended, and the reader can
  append, between the writer's `read_from` and its `is_ended`: `EndOfSession.LateOutputIsLost` is such a run and
  `EndOfSession.EndedExactly` the exact condition. While it is not too late for that, the session's end can always
  be told with the whole output (`CatchUp.EndsWell`).
- `README.md:15-16` promises exact resume within the retained history after a blip. If the shell exits during the
  blip, `handle_tcp` refuses the returning client, and output the ring still holds is never delivered:
  `Recovery.LostInTheBlip` is such a run, and `Recovery.RecoversExactly` the exact condition: a client that is
  offline can still come to have the whole output if and only if the session lives or it has everything already.
- An attach that was answered does not own the session. `is_busy` and `rotate_psk` are separate instructions of
  concurrent requests: `Attaching.BothAnswered` is a run in which two requests are answered, after a connection
  became active, and `Attaching.KeyOpensExactly` says how long a key handed out opens the session.
- `README.md:41` says shell exit reaps a session. A shell that exits before `spawn_session` inserts the session
  leaves it registered for good: `Reaping.OutlivesItsShell` is such a run and `Reaping.StaysRegisteredExactly` the
  exact condition.
- Decoding then encoding is not the identity on accepted plaintexts: `Frames.TrailingByteIsDropped` is an input and
  `Frames.EncodeDecodeExactly` the exact condition.

## Model

| member | source | states |
|---|---|---|
| ReplayRing.AppendRefines | src/server/session.rs:42-49 | one append keeps the ring exactly the last min(capacity, total) bytes of everything appended, and its start never moves back |
| ReplayRing.AppendsRefine | src/server/session.rs:25-49 | any list of appends, at any capacity including 0, leaves the ring that the concatenated history determines |
| ReplayRing.ReadSlicesHistory | src/server/session.rs:50-68 | a read answers with the history's own slice at the first retained offset not below the cursor, at most 65536 bytes, empty exactly when caught up or nothing is retained |
| ReplayRing.RingBuf.constructor | src/server/session.rs:32-38 | a new ring is the ring of the empty history |
| ReplayRing.RingBuf.Total | src/server/session.rs:39-41 | the total is the number of bytes ever appended |
| ReplayRing.RingBuf.Append | src/server/session.rs:42-49 | the in-place append and eviction add the bytes to the history and keep the ring what the history determines |
| ReplayRing.RingBuf.ReadFrom | src/server/session.rs:50-68 | the in-place read returns that slice of the history and its true offset |
| ClientOutput.AcceptSpans | src/client/session.rs:58-89 | whatever frame arrives, overlapping, repeated or ahead, the log stays a gapless, non-overlapping partition of what is committed |
| ClientOutput.AcceptFaithful | src/client/session.rs:58-89 | a frame with true bytes adds only true bytes, and a skip below the ring's start adds only an honest gap |
| ClientOutput.CoveredOnce | src/client/session.rs:58-89 | in such a partition every committed offset lies in exactly one item and no later offset in any |
| ClientOutput.Conservation | src/client/session.rs:58-89 | shown bytes plus reported gap lengths sum to the committed offset |
| ClientOutput.GaplessRendersHistory | src/client/session.rs:66-89 | without gaps the terminal shows the history itself up to the committed offset |
| ClientOutput.FrameRendering | src/client/session.rs:66-89 | committing a frame adds exactly that frame's text to the rendering of the log |
| ClientOutput.SessionOutput.constructor | src/client/session.rs:51-56 | a session starts with nothing committed and nothing shown |
| ClientOutput.SessionOutput.Show | src/client/session.rs:66-86 | the terminal gets the gap notice and only the bytes not shown before; on failure at most a beginning of that text |
| ClientOutput.SessionOutput.Commit | src/client/session.rs:87-88 | the offset moves to the frame's end only for a frame shown in full, and its items enter the log |
| ClientOutput.SessionOutput.Accept | src/client/session.rs:58-89 | a frame is shown and committed or nothing is committed; an error is an overflow or a failed terminal, which then holds the committed log and at most a beginning of one more frame |
| Replay.FlowExtends | src/server/daemon.rs:614-624 | a frame that continues the chain in flight keeps it a chain, ending where the frame ends |
| Replay.FlowCut | src/server/daemon.rs:614-624 | losing the end of what is in flight leaves a chain |
| Replay.ReadFollows | src/server/daemon.rs:614-617 | a read at a cursor the history has reached yields a true frame that follows the cursor, or finds it caught up |
| Replay.NextKeeps | src/server/daemon.rs:517-643 | every step of server, network and client keeps the invariant over ring, cursors, frames in flight, log and terminal |
| Replay.InvAlways | src/server/daemon.rs:517-643 | that invariant holds in every state of every run |
| Replay.RunGrows | src/client/session.rs:58-89 | history, eviction, committed log and terminal only ever grow along a run |
| Replay.ExactResume | src/client/session.rs:58-89 | in every state of every run the log partitions [0, received), every byte shown is the history's byte at its offset, and bytes plus gaps sum to received |
| Replay.AtMostOnceDisplay | src/client/session.rs:58-89 | the terminal holds exactly the rendering of the committed log, plus at most a beginning of one more frame once it has failed, after which the session is over |
| Replay.GapsStayEvicted | src/server/session.rs:42-68 | a gap once reported lies below the ring's start ever after, and log and terminal are never taken back |
| Replay.WithinRingIsExact | src/server/session.rs:42-68 | if the output never exceeds the ring no gap is ever reported and the terminal is the history up to received, across any reconnects |
| Replay.InFlightChain | src/server/daemon.rs:603-624 | frames in flight on the live connection chain from the client's committed offset to what the server has sent, which its cursor and the total bound |
| Replay.NoFalseRejection | src/server/daemon.rs:541-544 | in an honest run neither side ever rejects the resume offset and no frame is a protocol error |
| Replay.EndedIsComplete | src/client/session.rs:214-217 | a client told that the session ended has committed exactly the total its writer saw at its last read |
| Wakeup.NextKeeps | src/server/daemon.rs:609-641 | every step keeps it that a writer which registered before it looked is woken, or about to be, by what it missed |
| Wakeup.NoLostWakeup | src/server/daemon.rs:609-641 | a parked writer with unsent output or an ended session has been notified, or a producer's notification is still to come |
| Wakeup.AsleepMeansCaughtUp | src/server/session.rs:238-247 | once every producer has notified, a writer still asleep has sent the whole history of a session that lives |
| Wakeup.QuietMeansDelivered | src/server/daemon.rs:603-643 | when the live connection's writer sleeps, every producer has notified and nothing is in flight, the client has committed the whole history |
| Wakeup.NeverStuck | src/server/daemon.rs:603-643 | while a connected client lacks a byte, a frame is in flight, its writer can step without timer or failure, or a notification is about to come |
| CatchUp.Receives | src/client/session.rs:207-232 | a frame in flight to a connected client is shown or is a heartbeat, and brings delivery nearer |
| CatchUp.GoesOn | src/server/daemon.rs:603-643 | with output unsent the active writer's next step brings a write nearer or makes it |
| CatchUp.CatchesUp | src/server/daemon.rs:603-643 | from every reachable state with a client streaming on the active connection whose writer is not past its last read, finitely many of the program's own steps deliver the whole history |
| CatchUp.EndsWell | src/server/daemon.rs:603-643 | and once the session has ended, they tell the client so with the whole history committed |
| Recovery.Reconnects | src/client/session.rs:153-174 | a client that is offline completes a handshake with a session that lives, asking from its committed offset |
| Recovery.StaysShutOut | src/server/daemon.rs:530-535 | once the session has ended, a client that is offline commits nothing more, whatever happens |
| Recovery.RecoversExactly | src/server/daemon.rs:530-545 | from every reachable state with the client offline, some continuation gives it the whole output if and only if the session lives or it has everything already |
| Recovery.LostInTheBlip | src/server/daemon.rs:530-535 | a run in which a byte the ring still holds is lost because the session ended while the client was offline |
| EndOfSession.EndedAfterDrain | src/server/session.rs:230-249 | if the PTY reader had finished at the writer's last read, the told client has committed the whole output |
| EndOfSession.EndedExactly | src/server/daemon.rs:614-629 | the told client took the end from one connection, and it has all output if and only if nothing was appended after that connection's last read, whose total is what it was told |
| EndOfSession.UnchangedSince | src/server/session.rs:238-244 | the history keeps its length between two states of a run exactly when no append lies between them |
| EndOfSession.LateOutputIsLost | src/server/session.rs:279-287 | a run in which the client is told the session ended and a byte still in the ring is never delivered |
| Takeover.NextKeeps | src/server/session.rs:136-151 | every instruction keeps epochs distinct and late frames bounded |
| Takeover.OneCurrent | src/server/session.rs:136-143 | epochs handed out are distinct and never exceed the counter, so at most one connection passes the currency check |
| Takeover.AtMostOneLateFrame | src/server/daemon.rs:604-641 | a superseded connection writes at most one more frame, and none in an iteration begun after it was superseded |
| Takeover.StaysRight | src/server/session.rs:136-151 | as long as nobody takes the epoch, a right flag stays right while no superseded connection stands before one of the two stores, and none comes to stand there |
| Takeover.Misleads | src/server/session.rs:136-151 | any superseded connection that does stand there can make the flag wrong |
| Takeover.BusyExactly | src/server/session.rs:136-151 | at instruction granularity a right flag can go wrong under the same holder if and only if a superseded connection stands between the two instructions of `become_active`, or of `leave` while the holder is still there |
| Takeover.OwnStore | src/server/session.rs:136-151 | the newest holder's own store puts the flag right whatever it said |
| Takeover.StaleLeaveClearsBusy | src/server/session.rs:147-151 | a run in which an old connection's leave frees a session whose newest connection is active |
| Takeover.StaleEntryLeavesBusy | src/server/session.rs:136-140 | a run after which the session stays busy though no connection remains |
| Session.SessionShared.constructor | src/server/session.rs:216-228 | a session starts alive, not busy, with an empty ring of the configured capacity and the given key |
| Session.SessionShared.BecomeActive | src/server/session.rs:136-140 | as one step: a new epoch, and the session is busy with its connection |
| Session.SessionShared.Leave | src/server/session.rs:147-151 | as one step: only the newest connection's end frees the session, a superseded one's changes nothing |
| Session.SessionShared.IsBusy | src/server/session.rs:123-125 | busy if and only if the connection of the newest epoch has not left a session that lives |
| Session.SessionShared.MarkEnded | src/server/session.rs:169-174 | ended is set for good and exactly one caller is the first |
| Writer.Found | src/server/daemon.rs:614-616 | the writer has something to send if and only if its cursor is below the total, and then it is the next chunk |
| Writer.Emit | src/server/daemon.rs:616-625 | a chunk strictly advances the cursor, never past the total, whether or not the write succeeds |
| Writer.Rest | src/server/daemon.rs:626-641 | a caught-up writer says Ended exactly when the session has ended, and otherwise sends what its wait calls for |
| Writer.ServerWriter | src/server/daemon.rs:595-643 | whatever other threads do between its steps, the frames written chain from the start offset to the cursor; each turn advances until the output is sent; Ended comes last and after everything held at the start; if nobody else acts, what it sends begins with exactly the chunks owed |
| Writer.Chunked | src/server/daemon.rs:614-624 | what a writer owes in a quiet session is one chunk after the other from its cursor to the total |
| Writer.TakeTurn | src/server/daemon.rs:604-641 | one turn advances the chain or says why not; in a quiet session it sends exactly the next chunk owed |
| Writer.DrainBound | src/server/daemon.rs:603-625 | those are exactly ceil(unsent / 65536) frames, one empty frame if all unsent bytes were evicted, none if caught up, and they carry exactly the unsent retained bytes |
| Frames.DecodeEncode | src/proto/frame.rs:53-136 | a frame survives encoding and decoding unchanged if and only if it is within the Output length and offset bounds |
| Frames.EncodeDecode | src/proto/frame.rs:93-136 | an accepted plaintext is re-encoded byte for byte, except that Ping, Pong and Ended lose their trailing bytes |
| Frames.EncodeDecodeExactly | src/proto/frame.rs:93-136 | it is re-encoded unchanged if and only if nothing follows the type byte of a frame without payload |
| Frames.TrailingByteIsDropped | src/proto/frame.rs:117 | a Ping with a byte behind its type decodes and loses that byte |
| Frames.EmissionIsLegal | src/server/daemon.rs:614-618 | whatever the ring answers, at any capacity and offset, the frame built from it passes the peer's decoder |
| Crypto.NonceInjective | src/proto/crypto.rs:48-54 | two (direction, counter) pairs share a nonce if and only if they are equal |
| Crypto.IdealExists | src/proto/crypto.rs:34-46 | the idealisation of the cipher is consistent |
| Crypto.Sealer.Seal | src/proto/crypto.rs:62-71 | each successful call uses the next counter once, a failed one uses none for a record, and the last counter value is refused |
| Crypto.Opener.Open | src/proto/crypto.rs:80-91 | under an ideal AEAD a call succeeds, short of exhaustion, exactly on the sealing of its result under the expected nonce, and only then does the counter move |
| Crypto.NoncesNeverRepeat | src/proto/crypto.rs:56-72 | over any calls, failed ones included, no sealer uses a nonce twice and the two directions never share one |
| Records.WriteFrame | src/proto/frame.rs:140-153 | a frame that fits becomes one length-prefixed record under the next counter; otherwise nothing, or on a network failure at most a beginning of it, is written |
| Records.ReadFrame | src/proto/frame.rs:155-167 | reading consumes exactly one record and yields its frame, or fails for a bad length, an early end, a body that does not open or a plaintext that does not decode |
| Records.WriteFrames | src/proto/frame.rs:140-153 | successive calls leave the wire of their frames under successive counters; a call that fails leaves the wire so far, or on a network failure a beginning of one record more |
| Records.ReadFrames | src/proto/frame.rs:155-167 | successive calls yield what the arriving bytes determine, and the opener's counter counts them |
| Records.Relay | src/proto/frame.rs:140-167 | what a fresh sealer's calls write, a matching fresh opener's calls read back: all frames with both counters equal if nothing fails, otherwise a beginning of them |
| Records.RoundTrip | src/proto/frame.rs:140-167 | the wire of a list of frames reads back as that list, from counter zero to its length |
| Records.RoundTripThen | src/proto/frame.rs:140-167 | and goes on with whatever follows the records |
| Records.CutWire | src/proto/frame.rs:155-167 | a wire cut at any byte yields exactly the frames whose records are whole, then an error |
| Records.OnlyNextOpens | src/proto/crypto.rs:80-91 | of all bodies sealed on a connection, in either direction, only the next one of the reader's own direction opens |
| Records.TamperedStream | src/proto/frame.rs:155-167 | whole records dropped, repeated, reordered or reflected never yield anything but a beginning of what was sent |
| Records.TamperedBytes | src/proto/frame.rs:155-167 | neither do arbitrary bytes, cut, spliced, altered or made up, as long as no slice of them is a forgery |
| Records.EmissionTravels | src/server/daemon.rs:614-618 | every Output frame the server can build fits a record and is accepted |
| Handshake.ClientSend | src/proto/handshake.rs:45-63 | a hello of the committed layout is written, or nothing for an id that is not 8 bytes |
| Handshake.ServerRecv | src/proto/handshake.rs:85-108 | the hello is read field by field with exactly its errors, and nothing behind it is consumed |
| Handshake.HelloRoundTrip | src/proto/handshake.rs:45-108 | a sent hello is 53 bytes and is read back whatever follows, leaving exactly that |
| Handshake.OnlyHellos | src/proto/handshake.rs:85-108 | the server accepts nothing but what a client's send could have written |
| Handshake.TornHello | src/proto/handshake.rs:85-108 | a hello broken off anywhere is an end of stream and no other error |
| Handshake.ServerSend | src/proto/handshake.rs:111-130 | the reply of the given status is written in full, or a beginning of it when the network fails |
| Handshake.ClientRecv | src/proto/handshake.rs:66-82 | the reply is read with exactly its rejections and errors, and nothing behind it is consumed |
| Handshake.ReplyRoundTrip | src/proto/handshake.rs:66-130 | every reply is read back whatever follows, leaving exactly that |
| Handshake.OnlyReplies | src/proto/handshake.rs:66-82 | the client accepts nothing but what a server's send could have written |
| Handshake.Greet | src/server/daemon.rs:517-545 | the connection goes on exactly with a well-formed hello for a session that lives and has reached the offset; otherwise the matching rejection is sent, or none |
| Handshake.Handshakes | src/server/daemon.rs:521-545 | across the wire the client learns the session's total if and only if the session lives and has reached its offset, and the encrypted bytes that follow are untouched |
| Handshake.OtherVersionsAreTold | src/server/daemon.rs:521-529 | a client of any other version is answered with the version mismatch |
| Reconnect.Take | src/client/session.rs:58-89 | a frame is committed, or nothing is and the terminal holds at most a beginning of its text beyond the committed log |
| Reconnect.ClientReader | src/client/session.rs:200-233 | over the raw bytes: frames are committed until one is final, the stream breaks or the keyboard side stops; if the terminal fails, exactly the frames before one Output frame are committed and at most a beginning of that frame's text was shown |
| Reconnect.Hail | src/client/session.rs:153-179 | the hello asks for the committed offset; each way the opening can fail gives its own verdict |
| Reconnect.ConnectOnce | src/client/session.rs:144-198 | one attempt commits and returns exactly what its arriving bytes determine, or stops at the one frame on which the terminal failed |
| Reconnect.Drive | src/client/session.rs:106-142 | attempts follow one another as specified, none follows a final one or a terminal failure, and the terminal shows the committed log plus at most a beginning of the one frame of the last attempt that comes next |
| Reconnect.FinalForGood | src/client/session.rs:113-141 | once an attempt is final, no further attempt could change anything |
| Reconnect.TryingIsEstablished | src/client/session.rs:111-136 | a client that still tries after its first attempt was connected by it |
| Reconnect.NetworkFailureExactly | src/client/session.rs:128-137 | a network failure ends the session if and only if it hits the very first attempt |
| Reconnect.NeverOverflows | src/proto/frame.rs:101-105 | whatever bytes arrive, the overflow check of the client's accept never fires, because such a frame does not decode |
| Reconnect.ReadOnKeepsTrue | src/client/session.rs:207-232 | true frames, repeated, overlapping or skipping, keep the log true and are never a protocol error |
| Reconnect.ServerSends | src/server/daemon.rs:545-557 | a server's good reply, hello and frames are what `CutConnection` assumes of a connection, or a beginning of it when the network fails |
| Reconnect.CutConnection | src/client/session.rs:153-233 | a connection to a server, cut at any byte, fails as a whole or commits exactly the first frames; uncut it commits them all |
| Reconnect.DriveKeepsTrue | src/client/session.rs:106-142 | across any number of such connections the log partitions what is committed and shows the history's bytes, and the client never gives up for a protocol error |
| Reconnect.DeliverReadsOn | src/client/session.rs:213-231 | the transition system's client takes the same steps as the reader loop |
| Reconnect.DeliverEnds | src/client/session.rs:217 | and ends the session as it does |
| Reconnect.TearsAlike | src/client/session.rs:73-86 | its terminal tears exactly as a failed accept may tear, and nothing is committed |
| Keyboard.NextKey | src/client/session.rs:255-272 | a key completes the detach sequence exactly when it is `d` behind a held prefix, and releases exactly what cannot begin it |
| Keyboard.ScanChunk | src/client/session.rs:254-272 | for every chunk behind any earlier input: detach if and only if the sequence now occurs, otherwise forwarded plus held is all that was typed |
| Keyboard.ClientWriter | src/client/session.rs:235-304 | for every chunking: it detaches at the first adjacent sequence or a closed keyboard, forwards exactly what was typed before less a held prefix, drops the detaching chunk's bytes, sends no empty input, and answers pongs, resizes and ticks in order |
| Control.OrderIrrelevant | src/server/daemon.rs:419-460 | whether a request is allowed depends only on which guards it carries, not on their order, number or nesting |
| Control.WrapTransparent | src/server/agent.rs:33-50 | the agent's wrapping keeps the operation and is allowed exactly when the port it asked for and, for create and attach, its version match |
| Control.MarkEnded | src/server/session.rs:169-174 | the first to mark a session takes its id out of the table, a later one leaves the table alone |
| Reaping.NextKeeps | src/server/session.rs:169-174 | every step keeps the registry as the last of insertion and removal left it |
| Reaping.RemovedOnce | src/server/session.rs:169-174 | of the two threads that mark a session ended at most one removes it, once |
| Reaping.StaysRegisteredExactly | src/server/session.rs:230-289 | when both markers and the insertion are through, the session is ended and stays registered if and only if the removal preceded the insertion |
| Reaping.OutlivesItsShell | src/server/session.rs:279-289 | a run that leaves an ended session registered |
| Control.NewSessionId | src/server/daemon.rs:380-389 | the id drawn is not in use |
| Control.SpawnSession | src/server/session.rs:179-291 | a spawned session is registered under its id with its key, and may be ended already; a failed spawn registers nothing |
| Control.DoAttach | src/server/daemon.rs:486-501 | as one step, only a session that lives and is not busy gets a new key, which the reply carries; every other case changes nothing |
| Attaching.KeyOpensExactly | src/server/daemon.rs:493-500 | over all interleavings of concurrent attaches, with keys drawn afresh, the key a request is answered with is the session's key if and only if no later rotation followed |
| Attaching.OnlyWhenFree | src/server/daemon.rs:490-500 | a key is handed out only to a request that found the session free at some earlier step |
| Attaching.BothAnswered | src/server/daemon.rs:493-500 | a run in which two requests are answered after a connection became active, and the first key no longer opens the session |
| Control.DoCreate | src/server/daemon.rs:465-485 | one new session under an unused id, its key in the reply, or no change at all |
| Control.DoKill | src/server/daemon.rs:505-513 | exactly the named session is told to terminate |
| Control.PassesGuard | src/server/daemon.rs:422-450 | a matching guard is passed, the outermost one that does not match decides the refusal |
| Control.ExecuteControl | src/server/daemon.rs:413-515 | for every nesting, the inner operation runs if and only if all guards match and create and attach have a version guard; a refused request names the outermost mismatch and touches no registry entry, key or flag |
| Agent.TryRequestAt | src/server/agent.rs:99-126 | only a missing listener lets the caller try again; once connected every failure is an error |
| Agent.StartAndRequest | src/server/agent.rs:79-97 | one spawn, then at most 40 rounds of a try and a look at the daemon, and the result the last act means |
| Agent.Obtain | src/server/agent.rs:30-77 | every course of events is one the grammar allows, with the wrapped request and the port to start on, and the result its last act means |
| Agent.ConnectsOnce | src/server/agent.rs:52-76 | over all such courses the agent connects successfully at most once, as its last act but one |
| Agent.SubmitsOnce | src/server/agent.rs:99-126 | it submits its wrapped request over that connection only, and does nothing after it |
| Agent.SpawnsOnce | src/server/agent.rs:55-76 | it spawns at most one daemon, only to create a session, and only after it first found nobody listening |
| Agent.GivesUp | src/server/agent.rs:79-97 | it looks at the socket at most 41 times, whatever it finds |
| Startup.NextKeeps | src/server/daemon.rs:46-87 | every system call of every process, and every death, keeps it that only the lock's holder acts on the path and only while nobody serves it |
| Startup.OneLiveDaemon | src/server/daemon.rs:46-87 | at most one live daemon has published the control socket, and the path is its own |
| Startup.NeverUnlinked | src/server/daemon.rs:70-82 | a published socket stays its daemon's until that daemon dies |
| Startup.StepsAsideExactly | src/server/daemon.rs:70-74 | a starting daemon steps aside if and only if a live one has published its socket |
| Startup.BindSucceeds | src/server/daemon.rs:78-80 | nobody can take the path between its clearing and its binding |

## Left out

- Replay.ExactResume: assumes that a session outputs fewer than 2^64 bytes in all; the append step is disabled beyond that.
- Replay.AtMostOnceDisplay: the text of the gap notice is a parameter of the run, a function of the number of missing bytes.
- Wakeup.NoLostWakeup: that a notified task is scheduled, and that timers fire, is not stated; `CatchUp.CatchesUp` shows that the steps which deliver everything exist, not that a scheduler takes them.
- Takeover.AtMostOneLateFrame: counts frames whose write ends after the supersession; the heartbeats of the wait are among them.
- Records.TamperedBytes: that nothing but what was sealed on the connection opens is the assumption about the AEAD, made of the bytes that arrive; ChaCha20-Poly1305, HKDF and the random source are not modelled.
- Session.SessionShared.RotatePsk: that a client with the old key can no longer authenticate rests on the key derivation, which is not modelled; `Control.DoAttach` states which request rotates the key and hands it out.
- Reconnect.ConnectOnce: the keyboard side stops the reader between two frames, at a point given with the attempt; the key derived from the two nonces is given with the attempt.
- Keyboard.ClientWriter: a prefix key held when a connection breaks is dropped with that connection, as the code does; nothing is stated across connections.
- Control.SpawnSession: whether the spawn succeeds, the ids drawn, the key, and a shell that exits before the session is registered are parameters; the PTY, its size and the threads themselves are not modelled.
- Reaping.StaysRegisteredExactly: the notification between swap and removal is left out there; `Wakeup.NoLostWakeup` treats it.
- Control.DoAttach: the checks and the rotation are one step there; `Attaching.KeyOpensExactly` takes them apart, with the two flags read as one instruction.
- Control.DoKill: the kill is recorded on the session; what the operating system does with it is not modelled.
- Agent.Obtain: answers, failures, timeouts and the spawned process are chosen arbitrarily; error texts are reduced to their kinds.
- Startup.OneLiveDaemon: assumes that a connect succeeds exactly when the path names a live listener and that the kernel releases a dead process's lock.
- Other clients of a session are over-approximated: they may connect at any offset and hold the right key.
- The size of one PTY read (8192 bytes) and the width of `usize` are not bounded in the model; it allows more.
- Timers (`READ_IDLE`, `WRITER_TICK`, the 3 s tick) are steps that may happen at any time; backoff delays are left out.
- `server_reader` forwards input and resizes to the PTY; only its pongs and its end are modelled.
- `Registry::list` order, `status_str`, JSON lines, hex, SSH bootstrap, configuration, port ranges and logging.
- Memory ordering weaker than sequential consistency.
