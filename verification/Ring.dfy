/** The session's replay buffer (src/server/session.rs, `RingBuf`). */
module ReplayRing {
  import opened Bytes

  /** The most bytes one read, and so one Output frame, carries. */
  const MAX_OUTPUT_BYTES := 64 * 1024

  /** The value of a ring: the retained bytes, the absolute offset of the first one, the capacity. */
  datatype Ring = Ring(data: seq<byte>, start: nat, cap: nat) {
    function Total(): nat {
      start + |data|
    }

    function Append(bytes: seq<byte>): Ring {
      var all := data + bytes;
      if |all| > cap then
        Ring(all[|all| - cap..], start + (|all| - cap), cap)
      else
        Ring(all, start, cap)
    }

    /** A bounded chunk at or after `offset`, with the offset it really starts at. */
    function ReadFrom(offset: nat): (nat, seq<byte>) {
      if offset >= Total() then
        (Total(), [])
      else
        var from := Max(offset, start);
        (from, data[from - start..Min(from - start + MAX_OUTPUT_BYTES, |data|)])
    }
  }

  /** The first absolute offset still retained once `history` has been appended. */
  function Oldest(history: seq<byte>, cap: nat): nat {
    |history| - Min(cap, |history|)
  }

  /** What a ring is for: it holds exactly the last `cap` bytes of everything ever appended. */
  function RingOf(history: seq<byte>, cap: nat): Ring {
    Ring(history[Oldest(history, cap)..], Oldest(history, cap), cap)
  }

  lemma AppendRefines(history: seq<byte>, cap: nat, bytes: seq<byte>)
    ensures RingOf(history, cap).Append(bytes) == RingOf(history + bytes, cap)
    ensures RingOf(history, cap).Total() == |history|
    ensures Oldest(history, cap) <= Oldest(history + bytes, cap)
  {
    var r := RingOf(history, cap);
    var all := r.data + bytes;
    assert all == (history + bytes)[r.start..];
    if |all| > cap {
      assert all[|all| - cap..] == (history + bytes)[|history + bytes| - cap..];
    }
  }

  function Concat(parts: seq<seq<byte>>): seq<byte> {
    if parts == [] then [] else Concat(parts[..|parts| - 1]) + parts[|parts| - 1]
  }

  function AppendAll(ring: Ring, appends: seq<seq<byte>>): Ring {
    if appends == [] then ring
    else AppendAll(ring, appends[..|appends| - 1]).Append(appends[|appends| - 1])
  }

  /** A ring built by any appends, at any capacity including zero, is `RingOf` their concatenation. */
  lemma {:induction false} AppendsRefine(appends: seq<seq<byte>>, cap: nat)
    ensures AppendAll(Ring([], 0, cap), appends) == RingOf(Concat(appends), cap)
  {
    if appends == [] {
    } else {
      AppendsRefine(appends[..|appends| - 1], cap);
      AppendRefines(Concat(appends[..|appends| - 1]), cap, appends[|appends| - 1]);
    }
  }

  /** `ReadFrom` answers from the history: the slice at the first retained offset
      not below the cursor, as long as the frame bound allows; empty exactly when
      the cursor has caught up or nothing is retained. */
  lemma ReadSlicesHistory(history: seq<byte>, cap: nat, offset: nat)
    ensures var (from, out) := RingOf(history, cap).ReadFrom(offset);
      && from == (if offset >= |history| then |history| else Max(offset, Oldest(history, cap)))
      && |out| == Min(MAX_OUTPUT_BYTES, |history| - from)
      && out == history[from..from + |out|]
      && (out == [] <==> offset >= |history| || cap == 0)
      && (offset <= |history| ==> offset <= from)
      && (from > offset ==> from == Oldest(history, cap))
  {
    var (from, out) := RingOf(history, cap).ReadFrom(offset);
    assert out == history[from..from + |out|];
  }

  /** The ring as the server holds it: `Append` moves `data` and `start` in place. */
  class RingBuf {
    var data: seq<byte>
    var start: nat
    const cap: nat
    ghost var history: seq<byte>

    ghost predicate Valid()
      reads this
    {
      Value() == RingOf(history, cap)
    }

    function Value(): Ring
      reads this
    {
      Ring(data, start, cap)
    }

    constructor (cap: nat)
      ensures Valid() && history == [] && this.cap == cap
    {
      this.data, this.start, this.cap := [], 0, cap;
      this.history := [];
    }

    method Total() returns (total: nat)
      requires Valid()
      ensures total == |history|
    {
      total := start + |data|;
    }

    method Append(bytes: seq<byte>)
      requires Valid()
      modifies this
      ensures Valid() && history == old(history) + bytes
    {
      AppendRefines(history, cap, bytes);
      data := data + bytes;
      if |data| > cap {
        var dropN := |data| - cap;
        data := data[dropN..];
        start := start + dropN;
      }
      history := history + bytes;
    }

    method ReadFrom(offset: nat) returns (from: nat, out: seq<byte>)
      requires Valid()
      ensures (from, out) == Value().ReadFrom(offset)
      ensures from <= |history| && |out| == Min(MAX_OUTPUT_BYTES, |history| - from)
      ensures out == history[from..from + |out|]
      ensures from == (if offset >= |history| then |history| else Max(offset, start))
    {
      ReadSlicesHistory(history, cap, offset);
      var total := Total();
      if offset >= total {
        return total, [];
      }
      from := Max(offset, start);
      var idx := from - start;
      out := data[idx..Min(idx + MAX_OUTPUT_BYTES, |data|)];
    }
  }
}
