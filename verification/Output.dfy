/** The client's one terminal output and its committed offset
    (src/client/session.rs, `SessionOutput`). */
module ClientOutput {
  import opened Bytes
  import opened Streams

  /** What the client has committed: remote bytes at an absolute offset, or a reported gap. */
  datatype Item = Shown(from: nat, data: seq<byte>) | Gap(from: nat, to: nat) {
    function End(): nat {
      if Shown? then from + |data| else to
    }

    predicate Covers(p: nat) {
      from <= p < End()
    }
  }

  /** The wording of the gap notice, by the number of missing bytes; no result depends on the text. */
  datatype Wording = Wording(text: imap<nat, seq<byte>>) {
    function Notice(n: nat): seq<byte> {
      if n in text then text[n] else []
    }
  }

  function RenderItem(item: Item, notice: Wording): seq<byte> {
    match item
    case Shown(_, data) => data
    case Gap(from, to) => notice.Notice(if from <= to then to - from else 0)
  }

  /** The terminal bytes a log stands for. */
  function Render(log: seq<Item>, notice: Wording): seq<byte> {
    if log == [] then [] else Render(log[..|log| - 1], notice) + RenderItem(log[|log| - 1], notice)
  }

  /** The items partition `[0, end)`: contiguous, in order, none empty. */
  ghost predicate Spans(log: seq<Item>, end: nat)
    decreases |log|
  {
    if log == [] then end == 0
    else
      var last := log[|log| - 1];
      last.from < last.End() == end && Spans(log[..|log| - 1], last.from)
  }

  /** Every shown byte is the byte of `history` at its absolute offset. */
  ghost predicate Faithful(log: seq<Item>, history: seq<byte>) {
    forall i :: 0 <= i < |log| && log[i].Shown? ==>
      log[i].End() <= |history| && log[i].data == history[log[i].from..log[i].End()]
  }

  /** Every reported gap lies wholly below `start`. */
  ghost predicate Honest(log: seq<Item>, start: nat) {
    forall i :: 0 <= i < |log| && log[i].Gap? ==> log[i].to <= start
  }

  /** The items one Output frame adds to the log. */
  function AcceptItems(received: nat, offset: nat, data: seq<byte>): seq<Item> {
    if offset + |data| <= received then []
    else if offset > received then
      if data == [] then [Gap(received, offset)] else [Gap(received, offset), Shown(offset, data)]
    else
      [Shown(received, data[received - offset..])]
  }

  /** The committed offset after one Output frame. */
  function AcceptEnd(received: nat, offset: nat, data: seq<byte>): nat {
    Max(received, offset + |data|)
  }

  /** What one Output frame adds to the terminal: a notice for a gap, then the bytes not yet shown. */
  function FrameText(received: nat, offset: nat, data: seq<byte>, notice: Wording): seq<byte>
    requires received <= offset + |data|
  {
    if offset > received then notice.Notice(offset - received) + data else data[received - offset..]
  }

  // Facts about logs

  lemma RenderAppend(log: seq<Item>, item: Item, notice: Wording)
    ensures Render(log + [item], notice) == Render(log, notice) + RenderItem(item, notice)
  {
    assert (log + [item])[..|log|] == log;
  }

  lemma SpansAppend(log: seq<Item>, end: nat, item: Item)
    requires Spans(log, end) && item.from == end < item.End()
    ensures Spans(log + [item], item.End())
  {
    assert (log + [item])[..|log|] == log;
  }

  /** Any frame at all, overlapping, repeated or ahead, leaves the log a partition. */
  lemma AcceptSpans(log: seq<Item>, received: nat, offset: nat, data: seq<byte>)
    requires Spans(log, received)
    ensures Spans(log + AcceptItems(received, offset, data), AcceptEnd(received, offset, data))
  {
    var items := AcceptItems(received, offset, data);
    if items == [] {
      assert log + items == log;
    } else {
      SpansAppend(log, received, items[0]);
      if |items| == 2 {
        SpansAppend(log + [items[0]], offset, items[1]);
        assert log + [items[0]] + [items[1]] == log + items;
      } else {
        assert log + [items[0]] == log + items;
      }
    }
  }

  /** A frame that carries true bytes keeps the log true, and a gap below `start` keeps it honest. */
  lemma AcceptFaithful(log: seq<Item>, received: nat, offset: nat, data: seq<byte>, history: seq<byte>, start: nat)
    requires Faithful(log, history) && Honest(log, start)
    requires offset + |data| <= |history| && data == history[offset..offset + |data|]
    requires received < offset ==> offset <= start
    ensures Faithful(log + AcceptItems(received, offset, data), history)
    ensures Honest(log + AcceptItems(received, offset, data), start)
  {
  }

  lemma {:induction false} SpansBelow(log: seq<Item>, end: nat)
    requires Spans(log, end)
    ensures forall i :: 0 <= i < |log| ==> log[i].from < log[i].End() <= end
    decreases |log|
  {
    if log != [] {
      SpansBelow(log[..|log| - 1], log[|log| - 1].from);
      assert forall i :: 0 <= i < |log| - 1 ==> log[i] == log[..|log| - 1][i];
    }
  }

  /** The meaning of a partition: each committed offset lies in exactly one item, no later offset in any. */
  lemma {:induction false} CoveredOnce(log: seq<Item>, end: nat, p: nat)
    requires Spans(log, end)
    ensures p < end ==> exists i :: 0 <= i < |log| && log[i].Covers(p)
    ensures p >= end ==> forall i :: 0 <= i < |log| ==> !log[i].Covers(p)
    ensures forall i, j :: 0 <= i < |log| && 0 <= j < |log| && log[i].Covers(p) && log[j].Covers(p) ==> i == j
    decreases |log|
  {
    SpansBelow(log, end);
    if log != [] {
      var front, last := log[..|log| - 1], log[|log| - 1];
      CoveredOnce(front, last.from, p);
      assert forall i :: 0 <= i < |front| ==> front[i] == log[i];
    }
  }

  function ShownCount(log: seq<Item>): nat {
    if log == [] then 0
    else ShownCount(log[..|log| - 1]) + (if log[|log| - 1].Shown? then |log[|log| - 1].data| else 0)
  }

  function MissingCount(log: seq<Item>): int {
    if log == [] then 0
    else MissingCount(log[..|log| - 1]) + (if log[|log| - 1].Gap? then log[|log| - 1].to - log[|log| - 1].from else 0)
  }

  lemma {:induction false} Conservation(log: seq<Item>, end: nat)
    requires Spans(log, end)
    ensures ShownCount(log) + MissingCount(log) == end
    decreases |log|
  {
    if log != [] {
      Conservation(log[..|log| - 1], log[|log| - 1].from);
    }
  }

  /** Without gaps the terminal shows the history itself. */
  lemma {:induction false} GaplessRendersHistory(log: seq<Item>, end: nat, history: seq<byte>, notice: Wording)
    requires Spans(log, end) && Faithful(log, history)
    requires forall i :: 0 <= i < |log| ==> log[i].Shown?
    ensures end <= |history| && Render(log, notice) == history[..end]
    decreases |log|
  {
    if log != [] {
      var front, last := log[..|log| - 1], log[|log| - 1];
      assert forall i :: 0 <= i < |front| ==> front[i] == log[i];
      GaplessRendersHistory(front, last.from, history, notice);
      assert log[|log| - 1].Shown?;
      assert history[..last.from] + history[last.from..end] == history[..end];
    }
  }

  datatype Fatal = OutputFailed | OffsetOverflow

  lemma RenderTwo(log: seq<Item>, a: Item, b: Item, notice: Wording)
    ensures Render(log + [a, b], notice) == Render(log, notice) + (RenderItem(a, notice) + RenderItem(b, notice))
  {
    hide Render, RenderItem;
    RenderAppend(log, a, notice);
    RenderAppend(log + [a], b, notice);
    assert log + [a, b] == log + [a] + [b];
    Associative(Render(log, notice), RenderItem(a, notice), RenderItem(b, notice));
  }

  /** Committing a frame adds exactly its text to the rendering of the log. */
  lemma FrameRendering(log: seq<Item>, received: nat, offset: nat, data: seq<byte>, notice: Wording)
    requires received < offset + |data|
    ensures var items := AcceptItems(received, offset, data);
      Render(log + items, notice) == Render(log, notice) + FrameText(received, offset, data, notice)
  {
    if offset <= received {
      RenderAppend(log, Shown(received, data[received - offset..]), notice);
    } else if data == [] {
      RenderAppend(log, Gap(received, offset), notice);
      assert notice.Notice(offset - received) + data == notice.Notice(offset - received);
    } else {
      RenderTwo(log, Gap(received, offset), Shown(offset, data), notice);
    }
  }

  /** One terminal and one committed offset for the whole client session. */
  class SessionOutput {
    const writer: Sink
    const notice: Wording
    var received: u64
    /** What has been committed. */
    ghost var log: seq<Item>
    /** What a failed `Accept` left on the terminal beyond the committed log. */
    ghost var torn: seq<byte>

    ghost predicate Valid()
      reads this, writer
    {
      Spans(log, received) && writer.written == Render(log, notice) + torn
    }

    constructor (writer: Sink, notice: Wording)
      requires writer.written == []
      ensures Valid() && this.writer == writer && this.notice == notice && received == 0 && log == [] && torn == []
    {
      this.writer, this.notice := writer, notice;
      received, log, torn := 0, [], [];
    }

    /** Write `buf` to the terminal without committing it. */
    method Put(buf: seq<byte>) returns (ok: bool)
      requires Valid()
      modifies this`torn, writer
      ensures Valid() && torn <= old(torn) + buf
      ensures ok ==> torn == old(torn) + buf
      ensures writer.failed == (old(writer.failed) || !ok)
    {
      ok := writer.WriteAll(buf);
      if ok {
        torn := torn + buf;
      } else {
        ghost var k: nat :| k < |buf| && writer.written == old(writer.written) + buf[..k];
        torn := torn + buf[..k];
      }
    }

    /** The terminal half of `Accept`: the notice of a gap, the unseen bytes, a flush. */
    method Show(offset: nat, data: seq<byte>) returns (ok: bool)
      requires Valid() && torn == [] && received < offset + |data|
      modifies this`torn, writer
      ensures Valid()
      ensures torn <= FrameText(received, offset, data, notice)
      ensures ok ==> torn == FrameText(received, offset, data, notice)
      ensures writer.failed == (old(writer.failed) || !ok)
    {
      if offset > received {
        var text := notice.Notice(offset - received);
        ok := Put(text);
        if !ok {
          return;
        }
        assert torn == text;
      }
      var skip := if received > offset then received - offset else 0;
      assert skip == 0 ==> data[skip..] == data;
      ok := Put(data[skip..]);
      if ok {
        ok := writer.Flush();
      }
    }

    /** A frame shown in full becomes part of the log, and its end the committed offset. */
    method Commit(end: u64, ghost offset: nat, ghost data: seq<byte>)
      requires Valid() && received < end == offset + |data|
      requires torn == FrameText(received, offset, data, notice)
      modifies this
      ensures Valid() && torn == [] && received == end
      ensures log == old(log) + AcceptItems(old(received), offset, data)
    {
      AcceptSpans(log, received, offset, data);
      FrameRendering(log, received, offset, data, notice);
      log, torn, received := log + AcceptItems(received, offset, data), [], end;
    }

    /** Show one Output frame and commit it; a failure commits nothing. */
    method Accept(offset: u64, data: seq<byte>) returns (r: Result<(), Fatal>)
      requires Valid() && torn == []
      modifies this, writer
      ensures Valid()
      ensures r == Err(OffsetOverflow) <==> offset + |data| >= U64_LIMIT
      ensures r.Ok? ==> torn == [] && received == AcceptEnd(old(received), offset, data)
      ensures r.Ok? ==> log == old(log) + AcceptItems(old(received), offset, data)
      ensures r.Err? ==> log == old(log) && received == old(received)
      ensures r == Err(OffsetOverflow) ==> torn == []
      ensures writer.failed == (old(writer.failed) || r == Err(OutputFailed))
      ensures r == Err(OutputFailed) ==>
        writer.failed && received < offset + |data| && torn <= FrameText(received, offset, data, notice)
    {
      if offset + |data| >= U64_LIMIT {
        return Err(OffsetOverflow);
      }
      var end: u64 := offset + |data|;
      if end <= received {
        assert log + [] == log;
        return Ok(());
      }
      var ok := Show(offset, data);
      if !ok {
        return Err(OutputFailed);
      }
      Commit(end, offset, data);
      r := Ok(());
    }
  }
}
