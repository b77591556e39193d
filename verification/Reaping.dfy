/** How a session leaves the registry (src/server/session.rs, `mark_ended` and the end of `spawn_session`).
    The PTY reader and the reaper each run `mark_ended`; the thread that spawned the session inserts it. All
    three start before the insertion, and a step is one atomic instruction or one lock-protected operation. */
module Reaping {
  /** A thread that marks the session ended: before the swap, the first to swap and about to remove, through. */
  datatype Marker = Before | First | Through

  datatype Who = Reader | Reaper

  datatype State = State(reader: Marker, reaper: Marker, inserted: bool, ended: bool, registered: bool)

  datatype Event = Swap(who: Who) | Remove(who: Who) | Insert

  const INIT := State(Before, Before, false, false, false)

  function Of(s: State, who: Who): Marker {
    if who == Reader then s.reader else s.reaper
  }

  function With(s: State, who: Who, m: Marker): State {
    if who == Reader then s.(reader := m) else s.(reaper := m)
  }

  predicate Enabled(s: State, e: Event) {
    match e
    case Swap(who) => Of(s, who) == Before
    case Remove(who) => Of(s, who) == First
    case Insert => !s.inserted
  }

  function Next(s: State, e: Event): State
    requires Enabled(s, e)
  {
    match e
    case Swap(who) => With(s, who, if s.ended then Through else First).(ended := true)
    case Remove(who) => With(s, who, Through).(registered := false)
    case Insert => s.(inserted := true, registered := true)
  }

  datatype Run = Run(states: seq<State>, events: seq<Event>) {
    ghost predicate StepAt(i: nat) {
      i < |events| && i + 1 < |states| && Enabled(states[i], events[i]) && states[i + 1] == Next(states[i], events[i])
    }

    ghost predicate Valid() {
      && |states| == |events| + 1 && states[0] == INIT
      && forall i: nat :: i < |events| ==> StepAt(i)
    }
  }

  /** The removal took place in the first `n` steps, and at step `i`. */
  predicate RemovedAt(run: Run, n: nat, i: nat) {
    i < n <= |run.events| && run.events[i].Remove?
  }

  predicate InsertedAt(run: Run, n: nat, i: nat) {
    i < n <= |run.events| && run.events[i].Insert?
  }

  ghost predicate Removed(run: Run, n: nat) {
    exists i: nat :: RemovedAt(run, n, i)
  }

  ghost predicate Inserted(run: Run, n: nat) {
    exists i: nat :: InsertedAt(run, n, i)
  }

  /** The removal is one thread's, and once only; the insertion happens once; the registry is as the last of
      them left it. */
  ghost predicate Inv(run: Run, n: nat, s: State) {
    && (s.ended <==> s.reader != Before || s.reaper != Before)
    && (s.reader == First ==> s.reaper != First && !Removed(run, n))
    && (s.reaper == First ==> !Removed(run, n))
    && (Removed(run, n) ==> s.ended)
    && (s.ended && s.reader != First && s.reaper != First ==> Removed(run, n))
    && (forall i: nat, j: nat :: RemovedAt(run, n, i) && RemovedAt(run, n, j) ==> i == j)
    && (forall i: nat, j: nat :: InsertedAt(run, n, i) && InsertedAt(run, n, j) ==> i == j)
    && (s.inserted <==> Inserted(run, n))
    && (s.registered <==>
         s.inserted && forall i: nat, j: nat :: RemovedAt(run, n, i) && InsertedAt(run, n, j) ==> i < j)
  }

  lemma RemovalStep(run: Run, n: nat, m: nat)
    requires n < |run.events| && m == n + 1
    ensures forall i: nat :: RemovedAt(run, m, i) <==> RemovedAt(run, n, i) || (i == n && run.events[n].Remove?)
    ensures Removed(run, m) <==> Removed(run, n) || run.events[n].Remove?
  {
    if Removed(run, n) {
      var i: nat :| RemovedAt(run, n, i);
      assert RemovedAt(run, m, i);
    }
    if Removed(run, m) {
      var i: nat :| RemovedAt(run, m, i);
      assert i < n ==> RemovedAt(run, n, i);
    }
    if run.events[n].Remove? {
      assert RemovedAt(run, m, n);
    }
  }

  lemma InsertionStep(run: Run, n: nat, m: nat)
    requires n < |run.events| && m == n + 1
    ensures forall i: nat :: InsertedAt(run, m, i) <==> InsertedAt(run, n, i) || (i == n && run.events[n].Insert?)
    ensures Inserted(run, m) <==> Inserted(run, n) || run.events[n].Insert?
  {
    if Inserted(run, n) {
      var i: nat :| InsertedAt(run, n, i);
      assert InsertedAt(run, m, i);
    }
    if Inserted(run, m) {
      var i: nat :| InsertedAt(run, m, i);
      assert i < n ==> InsertedAt(run, n, i);
    }
    if run.events[n].Insert? {
      assert InsertedAt(run, m, n);
    }
  }

  lemma Nowhere(run: Run, n: nat)
    ensures !Removed(run, n) ==> forall i: nat :: !RemovedAt(run, n, i)
    ensures !Inserted(run, n) ==> forall i: nat :: !InsertedAt(run, n, i)
  {
  }

  lemma Where(run: Run, n: nat) returns (i: nat)
    requires Inserted(run, n)
    ensures InsertedAt(run, n, i)
  {
    i :| InsertedAt(run, n, i);
  }

  lemma Bounds(run: Run, n: nat)
    ensures forall i: nat :: RemovedAt(run, n, i) ==> i < n
    ensures forall i: nat :: InsertedAt(run, n, i) ==> i < n
  {
  }

  lemma NextKeeps(run: Run, n: nat)
    requires n < |run.events| && run.StepAt(n) && Inv(run, n, run.states[n])
    ensures Inv(run, n + 1, run.states[n + 1])
  {
    RemovalStep(run, n, n + 1);
    InsertionStep(run, n, n + 1);
    Bounds(run, n);
    hide RemovedAt, InsertedAt, Removed, Inserted;
    var e := run.events[n];
    if e.Remove? {
      assert !Removed(run, n);
      Nowhere(run, n);
      if run.states[n].inserted {
        var j := Where(run, n);
        assert RemovedAt(run, n + 1, n) && InsertedAt(run, n + 1, j);
      }
    }
    if e.Insert? {
      assert !Inserted(run, n);
      Nowhere(run, n);
    }
  }

  lemma {:induction false} InvAlways(run: Run, k: nat)
    requires run.Valid() && k < |run.states|
    ensures Inv(run, k, run.states[k])
  {
    if k > 0 {
      InvAlways(run, k - 1);
      assert run.StepAt(k - 1);
      NextKeeps(run, k - 1);
    }
  }

  /** A session is taken out of the registry at most once. */
  lemma RemovedOnce(run: Run, i: nat, j: nat)
    requires run.Valid() && i < |run.events| && j < |run.events| && run.events[i].Remove? && run.events[j].Remove?
    ensures i == j
  {
    InvAlways(run, |run.events|);
    assert RemovedAt(run, |run.events|, i) && RemovedAt(run, |run.events|, j);
  }

  /** When everybody is through, the session is ended, it was removed, and it stays registered for good exactly
      if the removal came before the insertion. */
  lemma StaysRegisteredExactly(run: Run, k: nat) returns (removal: nat, insertion: nat)
    requires run.Valid() && k < |run.states|
    requires var s := run.states[k]; s.reader == Through && s.reaper == Through && s.inserted
    ensures removal < k && run.events[removal].Remove? && insertion < k && run.events[insertion] == Insert
    ensures run.states[k].ended && (run.states[k].registered <==> removal < insertion)
  {
    InvAlways(run, k);
    removal :| RemovedAt(run, k, removal);
    insertion :| InsertedAt(run, k, insertion);
  }

  /** Such a run: the shell exits before the session is inserted. */
  lemma OutlivesItsShell() returns (run: Run)
    ensures run.Valid() && run.states[|run.states| - 1] == State(Through, Through, true, true, true)
  {
    var events := [Swap(Reader), Remove(Reader), Swap(Reaper), Insert];
    var s1 := Next(INIT, events[0]);
    var s2 := Next(s1, events[1]);
    var s3 := Next(s2, events[2]);
    run := Run([INIT, s1, s2, s3, Next(s3, events[3])], events);
    assert run.StepAt(0) && run.StepAt(1) && run.StepAt(2) && run.StepAt(3);
  }
}
