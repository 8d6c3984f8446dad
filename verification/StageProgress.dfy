/** The bounded recogniser of ordered stage labels in a child's output
    (scripts/openbao_2_6_4_sdk.py, class Progress and exchange). */
module StageProgress {
  import opened Text

  newtype byte = x: int | 0 <= x < 256
  type Bytes = seq<byte>

  const NEWLINE: byte := 10
  const MAX_TOTAL := 65536
  const MAX_TAIL := 1024
  const WRITE_SIZE := 4096

  /** `marker` starts every stage line; `stages` are the labels in their fixed order. */
  datatype Protocol = Protocol(marker: Bytes, stages: seq<Bytes>)

  function Labels(p: Protocol): seq<Bytes> {
    seq(|p.stages|, i requires 0 <= i < |p.stages| => p.marker + p.stages[i])
  }

  /** The lines among `lines` that claim to be stage lines. */
  function Marked(p: Protocol, lines: seq<Bytes>): seq<Bytes> {
    if lines == [] then []
    else (if StartsWith(lines[0], p.marker) then [lines[0]] else []) + Marked(p, lines[1..])
  }

  function StageLines(p: Protocol, data: Bytes): seq<Bytes> {
    Marked(p, Lines(data, NEWLINE))
  }

  /** The stage lines seen so far are the first labels, in order. */
  ghost predicate Ordered(p: Protocol, data: Bytes) {
    StageLines(p, data) <= Labels(p)
  }

  /** What one read may add to the bytes received before it. */
  ghost predicate StepOk(p: Protocol, before: Bytes, chunk: Bytes) {
    && |before + chunk| <= MAX_TOTAL
    && Ordered(p, before + chunk)
    && |Tail(before + chunk, NEWLINE)| <= MAX_TAIL
  }

  ghost predicate Accepts(p: Protocol, chunks: seq<Bytes>) {
    chunks == [] ||
    (var front := chunks[..|chunks| - 1];
     Accepts(p, front) && StepOk(p, Flatten(front), chunks[|chunks| - 1]))
  }

  lemma {:induction false} MarkedAppend(p: Protocol, a: seq<Bytes>, b: seq<Bytes>)
    ensures Marked(p, a + b) == Marked(p, a) + Marked(p, b)
  {
    if a == [] {
      assert a + b == b;
    } else {
      MarkedAppend(p, a[1..], b);
      AppendHead(a, b);
      AppendAssoc(if StartsWith(a[0], p.marker) then [a[0]] else [], Marked(p, a[1..]), Marked(p, b));
    }
  }

  lemma {:induction false} StageLinesAppend(p: Protocol, a: Bytes, b: Bytes)
    ensures StageLines(p, a + b) == StageLines(p, a) + StageLines(p, Tail(a, NEWLINE) + b)
  {
    LinesAppend(a, b, NEWLINE);
    MarkedAppend(p, Lines(a, NEWLINE), Lines(Tail(a, NEWLINE) + b, NEWLINE));
  }

  lemma {:induction false} OrderedPrefix(p: Protocol, a: Bytes, b: Bytes)
    requires Ordered(p, a + b)
    ensures Ordered(p, a)
  {
    StageLinesAppend(p, a, b);
    assert StageLines(p, a) <= StageLines(p, a + b);
  }

  // ----- Which chunkings are accepted

  /** Acceptance of a chunking, without running the recogniser: one condition on the
      whole byte stream, and one bound on the unfinished line at every cut. */
  lemma {:induction false} AcceptsIff(p: Protocol, chunks: seq<Bytes>)
    ensures Accepts(p, chunks) <==>
              && |Flatten(chunks)| <= MAX_TOTAL
              && Ordered(p, Flatten(chunks))
              && forall k :: 0 < k <= |chunks| ==> |Tail(Flatten(chunks[..k]), NEWLINE)| <= MAX_TAIL
  {
    if chunks == [] {
    } else {
      var n := |chunks| - 1;
      var front, last := chunks[..n], chunks[n];
      AcceptsIff(p, front);
      FlattenSnoc(front, last);
      assert chunks == front + [last];
      assert forall k :: 0 < k <= n ==> chunks[..k] == front[..k];
      assert chunks[..n + 1] == chunks;
      if Ordered(p, Flatten(chunks)) {
        OrderedPrefix(p, Flatten(front), last);
      }
    }
  }

  lemma {:induction false} AcceptsPrefix(p: Protocol, chunks: seq<Bytes>, k: nat)
    requires k <= |chunks| && Accepts(p, chunks)
    ensures Accepts(p, chunks[..k])
    decreases |chunks|
  {
    if k < |chunks| {
      AcceptsPrefix(p, chunks[..|chunks| - 1], k);
      assert chunks[..|chunks| - 1][..k] == chunks[..k];
    } else {
      assert chunks[..k] == chunks;
    }
  }

  /** Reading in larger pieces: every group of consecutive reads arrives as one. */
  function Merge(groups: seq<seq<Bytes>>): seq<Bytes> {
    seq(|groups|, i requires 0 <= i < |groups| => Flatten(groups[i]))
  }

  lemma {:induction false} MergeFlatten(groups: seq<seq<Bytes>>)
    ensures Flatten(Merge(groups)) == Flatten(Flatten(groups))
  {
    if groups != [] {
      MergeFlatten(groups[1..]);
      assert Merge(groups)[1..] == Merge(groups[1..]);
      FlattenAppend(groups[0], Flatten(groups[1..]));
    }
  }

  /** A cut of the merged stream is a cut of the original one. */
  lemma {:induction false} MergeCut(groups: seq<seq<Bytes>>, k: nat) returns (cut: nat)
    requires k <= |groups|
    ensures cut <= |Flatten(groups)|
    ensures Flatten(Merge(groups)[..k]) == Flatten(Flatten(groups)[..cut])
  {
    var head, rest := groups[..k], groups[k..];
    assert groups == head + rest;
    FlattenAppend(head, rest);
    cut := |Flatten(head)|;
    assert Flatten(groups)[..cut] == Flatten(head);
    assert Merge(groups)[..k] == Merge(head);
    MergeFlatten(head);
  }

  /** A chunking coarser than an accepted one is accepted, and leaves the same bytes. */
  lemma {:induction false} CoarserAccepted(p: Protocol, groups: seq<seq<Bytes>>)
    requires Accepts(p, Flatten(groups))
    ensures Accepts(p, Merge(groups))
    ensures Flatten(Merge(groups)) == Flatten(Flatten(groups))
  {
    var fine, coarse := Flatten(groups), Merge(groups);
    MergeFlatten(groups);
    AcceptsIff(p, fine);
    AcceptsIff(p, coarse);
    forall k | 0 < k <= |coarse| ensures |Tail(Flatten(coarse[..k]), NEWLINE)| <= MAX_TAIL {
      var cut := MergeCut(groups, k);
      assert cut == 0 ==> fine[..cut] == [];
    }
  }

  /** The converse fails: one read of an over-long line together with its newline is
      accepted, and the same bytes cut before the newline are not. */
  lemma {:induction false} FinerMayBeRejected(p: Protocol, line: Bytes)
    requires MAX_TAIL < |line| < MAX_TOTAL && NEWLINE !in line && !StartsWith(line, p.marker)
    ensures Accepts(p, [line + [NEWLINE]]) && !Accepts(p, [line, [NEWLINE]])
  {
    var whole := line + [NEWLINE];
    SplitFirst(line, [], NEWLINE);
    assert whole + [] == whole;
    SplitWithout(line, NEWLINE);
    AcceptsIff(p, [whole]);
    assert Flatten([whole]) == whole;
    assert [whole][..1] == [whole];
    assert Lines(whole, NEWLINE) == [line] && Tail(whole, NEWLINE) == [];
    assert Marked(p, [line]) == [];
    AcceptsIff(p, [line, [NEWLINE]]);
    assert [line, [NEWLINE]][..1] == [line];
    assert Flatten([line]) == line;
  }

  // ----- The recogniser itself

  method FirstNewline(data: Bytes) returns (i: nat)
    requires NEWLINE in data
    ensures i < |data| && data[i] == NEWLINE && NEWLINE !in data[..i]
  {
    i := 0;
    while data[i] != NEWLINE
      invariant i < |data| && NEWLINE !in data[..i] && NEWLINE in data[i..]
      decreases |data| - i
    {
      i := i + 1;
    }
  }

  /** Cutting one line off the buffer moves it from the unread to the read lines. */
  lemma {:induction false} CutLine(p: Protocol, done: seq<Bytes>, buffer: Bytes, i: nat)
    requires i < |buffer| && buffer[i] == NEWLINE && NEWLINE !in buffer[..i]
    ensures var line, rest := buffer[..i], buffer[i + 1..];
            && done + Lines(buffer, NEWLINE) == done + [line] + Lines(rest, NEWLINE)
            && Tail(buffer, NEWLINE) == Tail(rest, NEWLINE)
            && Marked(p, done + [line]) == Marked(p, done) + (if StartsWith(line, p.marker) then [line] else [])
            && Marked(p, done + [line]) <= Marked(p, done + Lines(buffer, NEWLINE))
  {
    var line, rest := buffer[..i], buffer[i + 1..];
    assert buffer == line + [NEWLINE] + rest;
    SplitFirst(line, rest, NEWLINE);
    assert Lines(buffer, NEWLINE) == [line] + Lines(rest, NEWLINE);
    assert done + ([line] + Lines(rest, NEWLINE)) == done + [line] + Lines(rest, NEWLINE);
    MarkedAppend(p, done, [line]);
    MarkedAppend(p, done + [line], Lines(rest, NEWLINE));
  }

  lemma {:induction false} NoLines(buffer: Bytes)
    requires NEWLINE !in buffer
    ensures Lines(buffer, NEWLINE) == [] && Tail(buffer, NEWLINE) == buffer
  {
    SplitWithout(buffer, NEWLINE);
  }

  class Progress {
    const protocol: Protocol
    var buffer: Bytes
    var total: nat
    var count: nat
    /** Every byte fed so far; the other fields are functions of it. */
    ghost var received: Bytes

    ghost predicate Valid()
      reads this
    {
      && Ordered(protocol, received)
      && buffer == Tail(received, NEWLINE)
      && total == |received|
      && count == |StageLines(protocol, received)|
    }

    constructor (p: Protocol)
      ensures Valid() && received == [] && protocol == p
    {
      protocol := p;
      buffer, total, count, received := [], 0, 0, [];
    }

    /** The final test of the exchange: the count of stage lines has reached the end. */
    method SeenAll() returns (all: bool)
      requires Valid()
      ensures all <==> StageLines(protocol, received) == Labels(protocol)
    {
      all := count == |protocol.stages|;
    }

    /** Succeeds exactly on an allowed read, whatever earlier reads delivered.
        A refusal is an exception in the source: the object is not used again. */
    method Feed(chunk: Bytes) returns (ok: bool)
      requires Valid()
      modifies this
      ensures received == old(received) + chunk
      ensures ok <==> StepOk(protocol, old(received), chunk)
      ensures ok ==> Valid()
    {
      ghost var before := received;
      received := received + chunk;
      total := total + |chunk|;
      if total > MAX_TOTAL {
        return false;
      }
      buffer := buffer + chunk;
      LinesAppend(before, chunk, NEWLINE);
      ghost var lines := Lines(before, NEWLINE);
      ghost var all := Lines(received, NEWLINE);
      assert Marked(protocol, lines) == Labels(protocol)[..count];
      hide Lines, Tail, Split, Marked;
      while NEWLINE in buffer
        invariant received == before + chunk && all == Lines(received, NEWLINE)
        invariant total == |received|
        invariant all == lines + Lines(buffer, NEWLINE)
        invariant Tail(received, NEWLINE) == Tail(buffer, NEWLINE)
        invariant count <= |protocol.stages|
        invariant Marked(protocol, lines) == Labels(protocol)[..count]
        decreases |buffer|
      {
        var i := FirstNewline(buffer);
        var line := buffer[..i];
        CutLine(protocol, lines, buffer, i);
        lines := lines + [line];
        buffer := buffer[i + 1..];
        if StartsWith(line, protocol.marker) {
          assert Marked(protocol, lines)[count] == line;
          if !(count < |protocol.stages| && line == protocol.marker + protocol.stages[count]) {
            return false;
          }
          assert line == Labels(protocol)[count];
          count := count + 1;
        }
      }
      NoLines(buffer);
      assert all == lines;
      ok := |buffer| <= MAX_TAIL;
    }
  }

  /** The state depends on the bytes alone, not on how they were cut into reads, and the
      complete stage lines are exactly the counted labels. */
  lemma {:induction false} StateOfBytes(a: Progress, b: Progress)
    requires a.Valid() && b.Valid() && a.protocol == b.protocol && a.received == b.received
    ensures a.count == b.count && a.buffer == b.buffer && a.total == b.total
    ensures a.count <= |a.protocol.stages|
    ensures StageLines(a.protocol, a.received) == Labels(a.protocol)[..a.count]
  {
  }

  // ----- Writing the payload while reading the output

  /** One readiness event: a write that the pipe takes up to `size` bytes of, or a read. */
  datatype IoEvent = Writable(size: nat) | Readable(chunk: Bytes)

  datatype Pipes = Pipes(offset: nat, stdinOpen: bool, stdoutOpen: bool, chunks: seq<Bytes>)

  function Min(a: nat, b: nat): nat {
    if a < b then a else b
  }

  /** One event; a pipe that is already closed reports none. */
  ghost function PumpStep(length: nat, s: Pipes, event: IoEvent): Pipes
    requires s.offset <= length
  {
    match event
    case Writable(size) =>
      if !s.stdinOpen then s
      else
        var offset := s.offset + Min(size, Min(WRITE_SIZE, length - s.offset));
        s.(offset := offset, stdinOpen := offset != length)
    case Readable(chunk) =>
      if !s.stdoutOpen then s
      else if chunk == [] then s.(stdoutOpen := false)
      else s.(chunks := s.chunks + [chunk])
  }

  /** The pipes after a script of events, for a payload of `length` bytes. */
  ghost function Pump(length: nat, script: seq<IoEvent>): (s: Pipes)
    ensures s.offset <= length && (!s.stdinOpen ==> s.offset == length)
  {
    if script == [] then Pipes(0, true, true, [])
    else PumpStep(length, Pump(length, script[..|script| - 1]), script[|script| - 1])
  }

  lemma {:induction false} PumpNext(length: nat, script: seq<IoEvent>, k: nat)
    requires k < |script|
    ensures Pump(length, script[..k + 1]) == PumpStep(length, Pump(length, script[..k]), script[k])
  {
    assert script[..k + 1][..k] == script[..k];
  }

  lemma {:induction false} PumpStable(length: nat, script: seq<IoEvent>, k: nat)
    requires k <= |script|
    ensures var early, late := Pump(length, script[..k]), Pump(length, script);
            && early.chunks <= late.chunks
            && (!early.stdinOpen && !early.stdoutOpen ==> late == early)
    decreases |script|
  {
    if k == |script| {
      assert script[..k] == script;
    } else {
      var front := script[..|script| - 1];
      PumpStable(length, front, k);
      assert front[..k] == script[..k];
    }
  }

  /** The stages a complete exchange must have produced. */
  ghost predicate Complete(p: Protocol, chunks: seq<Bytes>) {
    Accepts(p, chunks) && StageLines(p, Flatten(chunks)) == Labels(p)
  }

  /** One write of at most WRITE_SIZE bytes, of which the pipe takes up to `size`. */
  method WriteSome(payload: Bytes, offset: nat, size: nat, before: Bytes)
    returns (next: nat, delivered: Bytes)
    requires offset <= |payload| && before == payload[..offset]
    ensures next == offset + Min(size, Min(WRITE_SIZE, |payload| - offset))
    ensures delivered == payload[..next]
  {
    next := offset + Min(size, Min(WRITE_SIZE, |payload| - offset));
    delivered := before + payload[offset..next];
  }

  /** Success exactly when both pipes close before the script (the deadline) runs out,
      every read is accepted, all stages were seen and the child exits with 0;
      then the child got exactly the payload, and its stage lines are exactly the labels. */
  method Exchange(progress: Progress, payload: Bytes, script: seq<IoEvent>, exitCode: int)
    returns (ok: bool, delivered: Bytes)
    requires progress.Valid() && progress.received == []
    modifies progress
    ensures delivered <= payload
    ensures var end := Pump(|payload|, script);
            ok <==> !end.stdinOpen && !end.stdoutOpen && exitCode == 0
                    && Complete(progress.protocol, end.chunks)
    ensures ok ==> delivered == payload
  {
    var k: nat, offset: nat, stdinOpen, stdoutOpen := 0, 0, true, true;
    delivered := [];
    ghost var got: seq<Bytes> := [];
    assert script[..0] == [];
    while stdinOpen || stdoutOpen
      invariant k <= |script| && offset <= |payload|
      invariant Pump(|payload|, script[..k]) == Pipes(offset, stdinOpen, stdoutOpen, got)
      invariant delivered == payload[..offset]
      invariant !stdinOpen ==> offset == |payload|
      invariant progress.Valid() && progress.received == Flatten(got)
      invariant Accepts(progress.protocol, got)
      decreases |script| - k
    {
      hide Pump, Accepts, Flatten, StepOk, Progress.Valid, StageLines, Labels, Ordered;
      if k == |script| {
        assert script[..k] == script;
        return false, delivered;
      }
      PumpNext(|payload|, script, k);
      match script[k] {
        case Writable(size) =>
          if stdinOpen {
            offset, delivered := WriteSome(payload, offset, size, delivered);
            stdinOpen := offset != |payload|;
          }
        case Readable(chunk) =>
          if stdoutOpen {
            if chunk == [] {
              stdoutOpen := false;
            } else {
              AcceptsNext(progress.protocol, got, chunk);
              got := got + [chunk];
              var fed := progress.Feed(chunk);
              if !fed {
                RefusedForGood(progress.protocol, |payload|, script, k + 1);
                return false, delivered;
              }
            }
          }
      }
      k := k + 1;
    }
    hide Pump, Accepts, Flatten, StepOk, Progress.Valid, StageLines, Labels, Ordered;
    PumpStable(|payload|, script, k);
    var all := progress.SeenAll();
    ok := exitCode == 0 && all;
  }

  lemma {:induction false} AcceptsNext(p: Protocol, got: seq<Bytes>, chunk: Bytes)
    requires Accepts(p, got)
    ensures Flatten(got + [chunk]) == Flatten(got) + chunk
    ensures Accepts(p, got + [chunk]) <==> StepOk(p, Flatten(got), chunk)
  {
    FlattenSnoc(got, chunk);
    assert (got + [chunk])[..|got|] == got;
  }

  /** A refused read is refused in every continuation of the script. */
  lemma {:induction false} RefusedForGood(p: Protocol, length: nat, script: seq<IoEvent>, k: nat)
    requires k <= |script| && !Accepts(p, Pump(length, script[..k]).chunks)
    ensures !Accepts(p, Pump(length, script).chunks)
  {
    PumpStable(length, script, k);
    var early, late := Pump(length, script[..k]).chunks, Pump(length, script).chunks;
    assert late[..|early|] == early;
    if Accepts(p, late) {
      AcceptsPrefix(p, late, |early|);
    }
  }
}
