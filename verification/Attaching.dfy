/** Attach requests run as concurrent tasks (src/server/daemon.rs, `execute_control`): each looks whether the
    session can be attached to, and rotates its key in a later instruction. */
module Attaching {
  import opened Bytes
  import opened Session

  datatype Stage = Arrived | Passed | Refused | Answered(key: Psk)

  /** One session: its key, whether it lives and is not busy, and the requests to attach to it. */
  datatype State = State(psk: Psk, free: bool, requests: map<nat, Stage>)

  /** A request arrives, looks, or rotates the key and is answered with the new one; connections come and go. */
  datatype Event = Arrive(id: nat) | Look(id: nat) | Rotate(id: nat, key: Psk) | Change(free: bool)

  predicate At(s: State, id: nat, stage: Stage) {
    id in s.requests && s.requests[id] == stage
  }

  predicate Enabled(s: State, e: Event) {
    match e
    case Arrive(id) => id !in s.requests
    case Look(id) => At(s, id, Arrived)
    case Rotate(id, _) => At(s, id, Passed)
    case Change(_) => true
  }

  function Next(s: State, e: Event): State
    requires Enabled(s, e)
  {
    match e
    case Arrive(id) => s.(requests := s.requests[id := Arrived])
    case Look(id) => s.(requests := s.requests[id := if s.free then Passed else Refused])
    case Rotate(id, key) => s.(psk := key, requests := s.requests[id := Answered(key)])
    case Change(free) => s.(free := free)
  }

  datatype Run = Run(states: seq<State>, events: seq<Event>) {
    ghost predicate StepAt(i: nat) {
      i < |events| && i + 1 < |states| && Enabled(states[i], events[i]) && states[i + 1] == Next(states[i], events[i])
    }

    ghost predicate Valid(psk: Psk) {
      && |states| == |events| + 1 && states[0] == State(psk, true, map[])
      && forall i: nat :: i < |events| ==> StepAt(i)
    }

    /** The random source draws no key twice. */
    ghost predicate FreshKeys() {
      forall i, j :: 0 <= i < j < |events| && events[i].Rotate? && events[j].Rotate? ==> events[i].key != events[j].key
    }
  }

  /** After a rotation the session's key is that of the last one. */
  lemma {:induction false} LastKey(psk: Psk, run: Run, j: nat, k: nat) returns (i: nat)
    requires run.Valid(psk) && j < k < |run.states| && run.events[j].Rotate?
    ensures j <= i < k && run.events[i].Rotate? && run.states[k].psk == run.events[i].key
    ensures forall n :: i < n < k ==> !run.events[n].Rotate?
    decreases k
  {
    assert run.StepAt(k - 1);
    i := k - 1;
    if !run.events[k - 1].Rotate? {
      i := LastKey(psk, run, j, k - 1);
    }
  }

  /** A rotation answers its request with its key, and the answer stands. */
  lemma {:induction false} AnswerStands(psk: Psk, run: Run, j: nat, k: nat)
    requires run.Valid(psk) && j < k < |run.states| && run.events[j].Rotate?
    ensures At(run.states[k], run.events[j].id, Answered(run.events[j].key))
    decreases k
  {
    assert run.StepAt(k - 1);
    if j < k - 1 {
      AnswerStands(psk, run, j, k - 1);
    }
  }

  /** Whatever the requests interleave with, a key handed out opens the session exactly until the next rotation. */
  lemma KeyOpensExactly(psk: Psk, run: Run, j: nat, k: nat)
    requires run.Valid(psk) && run.FreshKeys() && j < k < |run.states| && run.events[j].Rotate?
    ensures At(run.states[k], run.events[j].id, Answered(run.events[j].key))
    ensures run.states[k].psk == run.events[j].key <==> forall i :: j < i < k ==> !run.events[i].Rotate?
  {
    AnswerStands(psk, run, j, k);
    var i := LastKey(psk, run, j, k);
  }

  lemma {:induction false} LookedBefore(psk: Psk, run: Run, k: nat, id: nat) returns (i: nat)
    requires run.Valid(psk) && k < |run.states| && At(run.states[k], id, Passed)
    ensures i < k && run.events[i] == Look(id) && run.states[i].free
  {
    assert run.StepAt(k - 1);
    if run.events[k - 1] == Look(id) {
      i := k - 1;
    } else {
      i := LookedBefore(psk, run, k - 1, id);
    }
  }

  /** A key is handed out only to a request that found the session free. */
  lemma {:induction false} OnlyWhenFree(psk: Psk, run: Run, j: nat) returns (i: nat)
    requires run.Valid(psk) && j < |run.events| && run.events[j].Rotate?
    ensures i < j && run.events[i] == Look(run.events[j].id) && run.states[i].free
  {
    assert run.StepAt(j);
    i := LookedBefore(psk, run, j, run.events[j].id);
  }

  /** But the look is not the rotation: a run in which two requests are answered although a connection had become
      active before either key was handed out, and the first key no longer opens the session. */
  lemma BothAnswered(psk: Psk, first: Psk, second: Psk) returns (run: Run)
    requires first != second
    ensures run.Valid(psk) && run.FreshKeys()
    ensures var s := run.states[|run.states| - 1];
      |run.events| == 7 && At(s, 0, Answered(first)) && At(s, 1, Answered(second)) && s.psk == second
    ensures !run.states[5].free && forall i :: 0 <= i < 5 ==> !run.events[i].Rotate?
  {
    var events := [Arrive(0), Look(0), Arrive(1), Look(1), Change(false), Rotate(0, first), Rotate(1, second)];
    var s0 := State(psk, true, map[]);
    var s1 := Next(s0, events[0]);
    var s2 := Next(s1, events[1]);
    var s3 := Next(s2, events[2]);
    var s4 := Next(s3, events[3]);
    var s5 := Next(s4, events[4]);
    var s6 := Next(s5, events[5]);
    run := Run([s0, s1, s2, s3, s4, s5, s6, Next(s6, events[6])], events);
    assert run.StepAt(0) && run.StepAt(1) && run.StepAt(2) && run.StepAt(3);
    assert run.StepAt(4) && run.StepAt(5) && run.StepAt(6);
  }
}
