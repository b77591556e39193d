/** The client's keyboard side (src/client/session.rs, `client_writer`): the detach sequence in
    arbitrarily chunked input. */
module Keyboard {
  import opened Bytes
  import opened Streams
  import opened Frames

  /** Ctrl-\ followed by `d`. */
  const DETACH_PREFIX: byte := 0x1c
  const DETACH_KEY: byte := 100

  /** What wakes the writer of one connection. */
  datatype Input =
    Keys(bytes: seq<byte>) | Closed | Resized(cols: u16, rows: u16) | PongDue | PeerGone | Tick(received: u64)

  datatype Outcome = StillConnected | Detached | Disconnected

  /** Everything typed, however it was chunked. */
  function Typed(inputs: seq<Input>): seq<byte> {
    if inputs == [] then []
    else Typed(inputs[..|inputs| - 1]) + (if inputs[|inputs| - 1].Keys? then inputs[|inputs| - 1].bytes else [])
  }

  /** The input that reached the server. */
  function Forwarded(frames: seq<Frame>): seq<byte> {
    if frames == [] then []
    else Forwarded(frames[..|frames| - 1]) + (if frames[|frames| - 1].Data? then frames[|frames| - 1].input else [])
  }

  /** The frames that carry no input, and the ones the inputs call for. */
  function Others(frames: seq<Frame>): seq<Frame> {
    if frames == [] then []
    else Others(frames[..|frames| - 1]) + (if frames[|frames| - 1].Data? then [] else [frames[|frames| - 1]])
  }

  function Due(input: Input): seq<Frame> {
    match input
    case Resized(cols, rows) => [Resize(cols, rows)]
    case PongDue => [Pong]
    case Tick(received) => [Ack(received), Ping]
    case _ => []
  }

  function AllDue(inputs: seq<Input>): seq<Frame> {
    if inputs == [] then [] else AllDue(inputs[..|inputs| - 1]) + Due(inputs[|inputs| - 1])
  }

  /** The two keys of the detach sequence stand side by side somewhere. */
  ghost predicate HasDetach(typed: seq<byte>) {
    exists i :: 1 <= i < |typed| && typed[i - 1] == DETACH_PREFIX && typed[i] == DETACH_KEY
  }

  /** The last key could begin the detach sequence. */
  predicate Held(typed: seq<byte>) {
    typed != [] && typed[|typed| - 1] == DETACH_PREFIX
  }

  /** All of it but a held prefix key. */
  function Released(typed: seq<byte>): seq<byte> {
    if Held(typed) then typed[..|typed| - 1] else typed
  }

  /** What one more key releases. */
  function Step(held: bool, b: byte): seq<byte> {
    (if held then [DETACH_PREFIX] else []) + (if b == DETACH_PREFIX then [] else [b])
  }

  /** One more key completes the sequence exactly when it is `d` behind a held prefix. */
  lemma NextKey(typed: seq<byte>, b: byte)
    ensures HasDetach(typed + [b]) <==> HasDetach(typed) || (Held(typed) && b == DETACH_KEY)
    ensures Held(typed + [b]) <==> b == DETACH_PREFIX
    ensures Released(typed + [b]) == Released(typed) + Step(Held(typed), b)
  {
    var more := typed + [b];
    assert more[|typed|] == b && more[..|typed|] == typed;
    assert forall i :: 0 <= i < |typed| ==> more[i] == typed[i];
    assert Held(typed) ==> typed[..|typed| - 1] + [DETACH_PREFIX] == typed;
  }

  lemma DetachStays(typed: seq<byte>, more: seq<byte>)
    requires HasDetach(typed)
    ensures HasDetach(typed + more)
  {
    var i :| 1 <= i < |typed| && typed[i - 1] == DETACH_PREFIX && typed[i] == DETACH_KEY;
    assert (typed + more)[i - 1] == DETACH_PREFIX && (typed + more)[i] == DETACH_KEY;
  }

  lemma TakeOne(before: seq<byte>, bytes: seq<byte>, i: nat)
    requires i < |bytes|
    ensures before + bytes[..i] + [bytes[i]] == before + bytes[..i + 1]
    ensures before + bytes[..i] + [bytes[i]] + bytes[i + 1..] == before + bytes
  {
  }

  /** Scan one chunk behind what was typed before on this connection. */
  method ScanChunk(bytes: seq<byte>, pending: bool, ghost before: seq<byte>)
    returns (out: seq<byte>, pending': bool, detached: bool)
    requires !HasDetach(before) && pending == Held(before)
    ensures detached <==> HasDetach(before + bytes)
    ensures !detached ==> pending' == Held(before + bytes) && Released(before) + out == Released(before + bytes)
  {
    hide HasDetach, Held, Released;
    out, pending', detached := [], pending, false;
    assert before + bytes[..0] == before && Released(before) + out == Released(before);
    for i := 0 to |bytes|
      invariant !HasDetach(before + bytes[..i]) && pending' == Held(before + bytes[..i])
      invariant Released(before) + out == Released(before + bytes[..i])
    {
      ghost var typed, released := before + bytes[..i], out;
      var b := bytes[i];
      NextKey(typed, b);
      TakeOne(before, bytes, i);
      Associative(Released(before), out, Step(pending', b));
      if pending' {
        pending' := false;
        if b == DETACH_KEY {
          DetachStays(typed + [b], bytes[i + 1..]);
          detached := true;
          return;
        }
        out := out + [DETACH_PREFIX];
        if b == DETACH_PREFIX {
          pending' := true;
        } else {
          out := out + [b];
        }
      } else if b == DETACH_PREFIX {
        pending' := true;
      } else {
        out := out + [b];
      }
      assert out == released + Step(Held(typed), b);
    }
    assert before + bytes[..|bytes|] == before + bytes;
  }

  lemma TypedNext(inputs: seq<Input>, n: nat)
    requires n < |inputs|
    ensures Typed(inputs[..n + 1]) ==
      if inputs[n].Keys? then Typed(inputs[..n]) + inputs[n].bytes else Typed(inputs[..n])
    ensures AllDue(inputs[..n + 1]) == AllDue(inputs[..n]) + Due(inputs[n])
    ensures Due(inputs[n]) == [] ==> AllDue(inputs[..n + 1]) == AllDue(inputs[..n])
  {
    assert inputs[..n + 1][..n] == inputs[..n];
  }

  lemma ForwardedNext(frames: seq<Frame>, f: Frame)
    ensures Forwarded(frames + [f]) == Forwarded(frames) + (if f.Data? then f.input else [])
    ensures Others(frames + [f]) == Others(frames) + (if f.Data? then [] else [f])
  {
    assert (frames + [f])[..|frames|] == frames;
  }

  /** No frame carries empty input. */
  predicate NoEmptyData(frames: seq<Frame>) {
    forall i :: 0 <= i < |frames| && frames[i].Data? ==> frames[i].input != []
  }

  /** Frames that carry no input. */
  method PutOther(w: FrameSink<Frame>, f: Frame) returns (ok: bool)
    requires !f.Data? && NoEmptyData(w.sent)
    modifies w
    ensures Forwarded(w.sent) == Forwarded(old(w.sent)) && NoEmptyData(w.sent)
    ensures Others(w.sent) == Others(old(w.sent)) + (if ok then [f] else [])
    ensures w.failed == (old(w.failed) || !ok)
  {
    ForwardedNext(w.sent, f);
    ok := w.Put(f);
  }

  /** The frames an input other than keys calls for. */
  method PutDue(w: FrameSink<Frame>, input: Input) returns (ok: bool)
    requires !input.Keys? && NoEmptyData(w.sent)
    modifies w
    ensures Forwarded(w.sent) == Forwarded(old(w.sent)) && NoEmptyData(w.sent)
    ensures w.failed == (old(w.failed) || !ok)
    ensures if ok then Others(w.sent) == Others(old(w.sent)) + Due(input) else Others(old(w.sent)) <= Others(w.sent)
  {
    ok := true;
    match input {
      case Resized(cols, rows) => ok := PutOther(w, Resize(cols, rows));
      case PongDue => ok := PutOther(w, Pong);
      case Tick(received) =>
        ghost var before := Others(w.sent);
        ok := PutOther(w, Ack(received));
        if ok {
          ok := PutOther(w, Ping);
          assert before + [Ack(received)] + [Ping] == before + [Ack(received), Ping];
        }
      case _ =>
    }
  }

  lemma Nothing(inputs: seq<Input>)
    ensures Typed(inputs[..0]) == [] && AllDue(inputs[..0]) == []
    ensures Forwarded([]) == Released([]) == [] && Others([]) == [] && NoEmptyData([])
    ensures !HasDetach([]) && !Held([])
  {
  }

  /** What the scanner released of a chunk goes out, if there is anything. */
  method PutInput(w: FrameSink<Frame>, out: seq<byte>) returns (ok: bool)
    requires NoEmptyData(w.sent)
    modifies w
    ensures Forwarded(w.sent) == Forwarded(old(w.sent)) + (if ok then out else []) && NoEmptyData(w.sent)
    ensures Others(w.sent) == Others(old(w.sent))
    ensures w.failed == (old(w.failed) || !ok)
  {
    ForwardedNext(w.sent, Data(out));
    ok := true;
    if out != [] {
      ok := w.Put(Data(out));
    }
  }

  /** One connection's writer; `taken` is the number of inputs it took in full. It detaches at the first adjacent
      detach sequence of everything typed or when the keyboard closes, forwards exactly what was typed before
      less a held prefix key, and drops what the detaching chunk had accumulated. */
  method ClientWriter(w: FrameSink<Frame>, inputs: seq<Input>) returns (outcome: Outcome, taken: nat)
    requires w.sent == [] && !w.failed
    modifies w
    ensures taken <= |inputs| && (outcome == StillConnected <==> taken == |inputs|)
    ensures !HasDetach(Typed(inputs[..taken])) && Forwarded(w.sent) == Released(Typed(inputs[..taken]))
    ensures NoEmptyData(w.sent) && AllDue(inputs[..taken]) <= Others(w.sent)
    ensures !w.failed ==> Others(w.sent) == AllDue(inputs[..taken])
    ensures outcome == Detached <==>
      taken < |inputs| && !w.failed && (inputs[taken] == Closed || HasDetach(Typed(inputs[..taken + 1])))
    ensures outcome == Disconnected ==> w.failed || inputs[taken] == PeerGone
    ensures outcome == StillConnected ==> !w.failed
  {
    hide Typed, AllDue, Others, Forwarded, HasDetach, Held, Released, NoEmptyData;
    Nothing(inputs);
    taken, outcome := 0, StillConnected;
    var pending := false;
    while taken < |inputs|
      invariant taken <= |inputs| && !w.failed && outcome == StillConnected
      invariant !HasDetach(Typed(inputs[..taken])) && pending == Held(Typed(inputs[..taken]))
      invariant Forwarded(w.sent) == Released(Typed(inputs[..taken])) && NoEmptyData(w.sent)
      invariant Others(w.sent) == AllDue(inputs[..taken])
    {
      TypedNext(inputs, taken);
      var ok := true;
      match inputs[taken] {
        case Keys(bytes) =>
          var out, pending', detached := ScanChunk(bytes, pending, Typed(inputs[..taken]));
          if detached {
            return Detached, taken;
          }
          ok := PutInput(w, out);
          pending := pending';
        case Closed => return Detached, taken;
        case PeerGone => return Disconnected, taken;
        case input => ok := PutDue(w, input);
      }
      if !ok {
        return Disconnected, taken;
      }
      taken := taken + 1;
    }
    assert inputs[..|inputs|] == inputs;
  }
}
