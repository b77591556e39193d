/** The shared session object with each method as one step (src/server/session.rs, `SessionShared`). */
module Session {
  import opened Bytes
  import opened ReplayRing

  /** What the session's other threads and tasks do while a writer is not looking. */
  datatype Act = Act(bytes: seq<byte>, newcomer: bool, ends: bool)

  /** The key a client must hold to open the session's connections. */
  type Psk = bs: seq<byte> | |bs| == 32 witness seq(32, _ => 0)

  class SessionShared {
    const ring: RingBuf
    /** The size its terminal was opened with. */
    const cols: u16
    const rows: u16
    var psk: Psk
    /** Its shell has been told to terminate. */
    var killed: bool
    var ended: bool
    var activeEpoch: nat
    var connected: bool
    /** The epochs whose connection has called `Leave`. */
    ghost var left: set<nat>

    /** The busy flag holds exactly while the connection of the newest epoch has not left. */
    ghost predicate Valid()
      reads this, ring
    {
      && ring.Valid() && |ring.history| < U64_LIMIT
      && (connected <==> activeEpoch > 0 && activeEpoch !in left)
      && (forall e :: e in left ==> 0 < e <= activeEpoch)
    }

    constructor (cols: u16, rows: u16, ringBytes: nat, psk: Psk)
      ensures Valid() && fresh(ring) && ring.cap == ringBytes && ring.history == []
      ensures !ended && activeEpoch == 0 && !connected && left == {} && !killed && this.psk == psk
      ensures this.cols == cols && this.rows == rows
    {
      this.cols, this.rows := cols, rows;
      ring := new RingBuf(ringBytes);
      ended, activeEpoch, connected, left, killed := false, 0, false, {}, false;
      this.psk := psk;
    }

    /** A new key; connections that know the old one keep running. */
    method RotatePsk(key: Psk) returns (r: Psk)
      modifies this`psk
      ensures psk == r == key
    {
      psk := key;
      r := key;
    }

    method Kill()
      modifies this`killed
      ensures killed
    {
      killed := true;
    }

    /** Take over as the active connection; the epoch is a new one. */
    method BecomeActive() returns (epoch: nat)
      requires Valid()
      modifies this`activeEpoch, this`connected
      ensures Valid() && connected && epoch == activeEpoch == old(activeEpoch) + 1 && epoch !in left
    {
      activeEpoch := activeEpoch + 1;
      epoch := activeEpoch;
      connected := true;
    }

    method IsCurrent(epoch: nat) returns (current: bool)
      ensures current <==> epoch == activeEpoch
    {
      current := activeEpoch == epoch;
    }

    /** A connection ends: only the newest one's end frees the session. */
    method Leave(epoch: nat)
      requires Valid() && 0 < epoch <= activeEpoch
      modifies this`connected, this`left
      ensures Valid() && left == old(left) + {epoch}
      ensures connected == (old(connected) && epoch != activeEpoch)
    {
      var current := IsCurrent(epoch);
      if current {
        connected := false;
      }
      left := left + {epoch};
    }

    /** Busy means that the connection of the newest epoch has not left a session that lives. */
    method IsBusy() returns (busy: bool)
      ensures busy == (connected && !ended)
      ensures Valid() ==> (busy <==> activeEpoch > 0 && activeEpoch !in left && !ended)
    {
      busy := connected && !ended;
    }

    /** Ended is set once; only the caller that sets it goes on to notify and to unregister. */
    method MarkEnded() returns (first: bool)
      modifies this`ended
      ensures ended && first == !old(ended) && (old(Valid()) ==> Valid())
    {
      first := !ended;
      ended := true;
    }

    method Interfere(act: Act)
      requires Valid()
      modifies this`activeEpoch, this`connected, this`ended, ring
      ensures Valid()
      ensures old(ring.history) <= ring.history && old(ring.start) <= ring.start
      ensures act.bytes == [] ==> ring.history == old(ring.history)
      ensures activeEpoch == old(activeEpoch) + (if act.newcomer then 1 else 0)
      ensures ended == (old(ended) || act.ends)
    {
      if act.bytes != [] && |act.bytes| < U64_LIMIT - ring.start - |ring.data| {
        AppendRefines(ring.history, ring.cap, act.bytes);
        assert ring.start == ring.Value().start;
        ring.Append(act.bytes);
        assert ring.start == ring.Value().start;
      }
      if act.newcomer {
        var _ := BecomeActive();
      }
      if act.ends {
        var _ := MarkEnded();
      }
    }
  }
}
