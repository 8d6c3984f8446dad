/** The two-way conversation with the lag fixture's child process
    (scripts/openbao_2_7_consistency_sdk_lag.py, class Session). */
module StageSession {
  import opened Text
  import opened StageProgress

  const MAX_OUTPUT := 16384
  const MAX_SEND := 65536

  /** What follows the first marker in a line, if the line has one. */
  function Payload(marker: Bytes, line: Bytes): Option<Bytes> {
    var at := Find(line, marker);
    if at.Some? then Some(line[at.value + |marker|..]) else None
  }

  function Payloads(marker: Bytes, lines: seq<Bytes>): seq<Bytes> {
    if lines == [] then []
    else
      var first := Payload(marker, lines[0]);
      (if first.Some? then [first.value] else []) + Payloads(marker, lines[1..])
  }

  /** The marker payloads of the finished lines of `data`. */
  function Seen(marker: Bytes, data: Bytes): seq<Bytes> {
    Payloads(marker, Lines(data, NEWLINE))
  }

  /** Reads that neither hit end of file nor exceed the output limit. */
  ghost predicate Clean(before: Bytes, chunks: seq<Bytes>) {
    && [] !in chunks
    && |before + Flatten(chunks)| <= MAX_OUTPUT
  }

  lemma {:induction false} PayloadsAppend(marker: Bytes, a: seq<Bytes>, b: seq<Bytes>)
    ensures Payloads(marker, a + b) == Payloads(marker, a) + Payloads(marker, b)
  {
    if a == [] {
      assert a + b == b;
    } else {
      PayloadsAppend(marker, a[1..], b);
      AppendHead(a, b);
      var first := Payload(marker, a[0]);
      AppendAssoc(if first.Some? then [first.value] else [], Payloads(marker, a[1..]), Payloads(marker, b));
    }
  }

  lemma {:induction false} SeenGrows(marker: Bytes, a: Bytes, b: Bytes)
    ensures Seen(marker, a) <= Seen(marker, a + b)
  {
    LinesAppend(a, b, NEWLINE);
    PayloadsAppend(marker, Lines(a, NEWLINE), Lines(Tail(a, NEWLINE) + b, NEWLINE));
  }

  lemma {:induction false} SeenOverReads(marker: Bytes, before: Bytes, pipe: seq<Bytes>, i: nat, j: nat)
    requires i <= j <= |pipe|
    ensures Seen(marker, before + Flatten(pipe[..i])) <= Seen(marker, before + Flatten(pipe[..j]))
    ensures Clean(before, pipe[..j]) ==> Clean(before, pipe[..i])
  {
    assert pipe[..j] == pipe[..i] + pipe[i..j];
    FlattenAppend(pipe[..i], pipe[i..j]);
    assert before + Flatten(pipe[..j]) == before + Flatten(pipe[..i]) + Flatten(pipe[i..j]);
    SeenGrows(marker, before + Flatten(pipe[..i]), Flatten(pipe[i..j]));
  }

  /** Moving one line from the buffer to the lines already read. */
  lemma {:induction false} ReadLine(marker: Bytes, done: seq<Bytes>, buffer: Bytes, i: nat)
    requires i < |buffer| && buffer[i] == NEWLINE && NEWLINE !in buffer[..i]
    ensures var line, rest := buffer[..i], buffer[i + 1..];
            && done + Lines(buffer, NEWLINE) == done + [line] + Lines(rest, NEWLINE)
            && Tail(buffer, NEWLINE) == Tail(rest, NEWLINE)
            && Payloads(marker, done + [line]) ==
                 Payloads(marker, done) + (if Payload(marker, line).Some? then [Payload(marker, line).value] else [])
            && Payloads(marker, done + [line]) <= Payloads(marker, done + Lines(buffer, NEWLINE))
  {
    CutLine(Protocol(marker, []), done, buffer, i);
    PayloadsAppend(marker, done, [buffer[..i]]);
    PayloadsAppend(marker, done + [buffer[..i]], Lines(buffer[i + 1..], NEWLINE));
  }

  /** A chunk that arrives when the buffer holds no finished line. */
  lemma {:induction false} ReadChunk(received: Bytes, done: seq<Bytes>, buffer: Bytes, chunk: Bytes)
    requires NEWLINE !in buffer
    requires Lines(received, NEWLINE) == done + Lines(buffer, NEWLINE)
    requires Tail(received, NEWLINE) == Tail(buffer, NEWLINE)
    ensures Lines(received, NEWLINE) == done
    ensures Lines(received + chunk, NEWLINE) == done + Lines(buffer + chunk, NEWLINE)
    ensures Tail(received + chunk, NEWLINE) == Tail(buffer + chunk, NEWLINE)
  {
    SplitWithout(buffer, NEWLINE);
    assert Lines(buffer, NEWLINE) == [];
    LinesAppend(received, chunk, NEWLINE);
  }

  lemma {:induction false} OneMoreRead(before: Bytes, source: seq<Bytes>, taken: nat)
    requires taken < |source|
    ensures before + Flatten(source[..taken + 1]) == before + Flatten(source[..taken]) + source[taken]
    ensures Clean(before, source[..taken + 1]) <==>
              && Clean(before, source[..taken]) && source[taken] != []
              && |before + Flatten(source[..taken + 1])| <= MAX_OUTPUT
  {
    assert source[..taken + 1] == source[..taken] + [source[taken]];
    FlattenSnoc(source[..taken], source[taken]);
  }

  /** None of the first `taken` reads completed the next marker line. */
  ghost predicate Waiting(marker: Bytes, before: Bytes, source: seq<Bytes>, taken: nat, stage: nat)
    requires taken <= |source|
  {
    forall i :: 0 <= i < taken ==> |Seen(marker, before + Flatten(source[..i]))| <= stage
  }

  lemma {:induction false} NothingRead(before: Bytes, source: seq<Bytes>)
    ensures before == before + Flatten(source[..0])
    ensures |before| <= MAX_OUTPUT ==> Clean(before, source[..0])
  {
    assert before + [] == before;
  }

  lemma {:induction false} StillWaiting(marker: Bytes, before: Bytes, source: seq<Bytes>, taken: nat, stage: nat)
    requires taken < |source| && Waiting(marker, before, source, taken, stage)
    requires |Seen(marker, before + Flatten(source[..taken]))| <= stage
    ensures Waiting(marker, before, source, taken + 1, stage)
  {
  }

  /** The marker payload number `stage` of the output is `wanted`. */
  predicate NextIs(marker: Bytes, data: Bytes, stage: nat, wanted: Bytes) {
    var seen := Seen(marker, data);
    stage < |seen| && seen[stage] == wanted
  }

  /** The result of scanning the buffer for the next marker line. */
  datatype Outcome = Matched | Mismatched | NeedMore

  class Session {
    const marker: Bytes
    const stages: seq<Bytes>
    var buffer: Bytes
    var total: nat
    var stage: nat
    /** What the following reads of the child's output will return. */
    var pipe: seq<Bytes>
    /** All bytes read so far, and the lines taken off them. */
    ghost var received: Bytes
    ghost var done: seq<Bytes>

    /** No byte is lost: the lines taken and the buffer are exactly what was read, and
        the marker lines taken are exactly the first stages. */
    ghost predicate Valid()
      reads this
    {
      && stage <= |stages|
      && total == |received| <= MAX_OUTPUT
      && Lines(received, NEWLINE) == done + Lines(buffer, NEWLINE)
      && Tail(received, NEWLINE) == Tail(buffer, NEWLINE)
      && Payloads(marker, done) == stages[..stage]
    }

    constructor (marker: Bytes, stages: seq<Bytes>, pipe: seq<Bytes>)
      ensures Valid() && stage == 0 && received == [] && buffer == []
      ensures this.marker == marker && this.stages == stages && this.pipe == pipe
    {
      this.marker, this.stages, this.pipe := marker, stages, pipe;
      buffer, total, stage, received, done := [], 0, 0, [], [];
    }

    /** Takes finished lines off the buffer until one carries a marker; that one must
        announce `wanted`. */
    method Scan(wanted: Bytes) returns (outcome: Outcome)
      requires Valid() && stage < |stages| && wanted == stages[stage]
      modifies `buffer, `done, `stage
      ensures outcome.Matched? ==> Valid() && stage == old(stage) + 1
      ensures outcome.Matched? <==> NextIs(marker, received, old(stage), wanted)
      ensures outcome.NeedMore? ==> Valid() && stage == old(stage) && NEWLINE !in buffer
      ensures outcome.NeedMore? <==> |Seen(marker, received)| <= old(stage)
    {
      PayloadsAppend(marker, done, Lines(buffer, NEWLINE));
      hide Lines, Tail, Split, Payload, Payloads;
      while NEWLINE in buffer
        invariant Valid() && stage == old(stage)
        invariant Payloads(marker, done) <= Seen(marker, received)
        decreases |buffer|
      {
        var i := FirstNewline(buffer);
        var line := buffer[..i];
        ReadLine(marker, done, buffer, i);
        done := done + [line];
        buffer := buffer[i + 1..];
        var found := Payload(marker, line);
        if found.Some? {
          assert Payloads(marker, done) == stages[..stage] + [found.value];
          assert Seen(marker, received)[stage] == found.value;
          if found.value != wanted {
            return Mismatched;
          }
          stage := stage + 1;
          return Matched;
        }
      }
      NoLines(buffer);
      assert done + [] == done;
      outcome := NeedMore;
    }

    /** One read of the child's output into a buffer without a finished line. */
    method ReadMore() returns (ok: bool)
      requires Valid() && NEWLINE !in buffer && pipe != []
      modifies `pipe, `received, `total, `buffer
      ensures pipe == old(pipe)[1..] && received == old(received) + old(pipe)[0]
      ensures ok <==> old(pipe)[0] != [] && |received| <= MAX_OUTPUT
      ensures ok ==> Valid()
    {
      var chunk := pipe[0];
      ReadChunk(received, done, buffer, chunk);
      pipe := pipe[1..];
      received := received + chunk;
      total := total + |chunk|;
      buffer := buffer + chunk;
      ok := chunk != [] && total <= MAX_OUTPUT;
    }

    /** Waits for `wanted`, reading no more than needed. It succeeds exactly when it is the
        expected label and the next marker line of the output, in whatever pieces the
        output arrives. A refusal is an exception: the session is then abandoned. */
    method Expect(wanted: Bytes) returns (ok: bool, ghost taken: nat)
      requires Valid()
      modifies this
      ensures taken <= |old(pipe)| && pipe == old(pipe)[taken..]
      ensures received == old(received) + Flatten(old(pipe)[..taken])
      ensures Waiting(marker, old(received), old(pipe), taken, old(stage))
      ensures ok <==>
                && old(stage) < |stages| && wanted == stages[old(stage)]
                && Clean(old(received), old(pipe)[..taken])
                && NextIs(marker, received, old(stage), wanted)
      ensures old(stage) < |stages| && wanted == stages[old(stage)] ==>
                || old(stage) < |Seen(marker, received)|
                || !Clean(old(received), old(pipe)[..taken])
                || pipe == []
      ensures ok ==> Valid() && stage == old(stage) + 1
    {
      taken := 0;
      ghost var before, source := received, pipe;
      NothingRead(before, source);
      if !(stage < |stages| && wanted == stages[stage]) {
        return false, taken;
      }
      hide *;
      while true
        invariant Valid() && stage == old(stage)
        invariant taken <= |source| && pipe == source[taken..]
        invariant received == before + Flatten(source[..taken])
        invariant Clean(before, source[..taken])
        invariant Waiting(marker, before, source, taken, stage)
        decreases |pipe|
      {
        var outcome := Scan(wanted);
        if !outcome.NeedMore? || pipe == [] {
          return outcome.Matched?, taken;
        }
        StillWaiting(marker, before, source, taken, stage);
        OneMoreRead(before, source, taken);
        var more := ReadMore();
        taken := taken + 1;
        if !more {
          return false, taken;
        }
      }
    }

    /** `finish`: only after every stage, and only for a child that exits with 0. */
    method Finish(exitCode: int) returns (ok: bool)
      requires Valid()
      ensures ok <==> stage == |stages| && exitCode == 0
      ensures ok ==> Payloads(marker, done) == stages
    {
      assert stage == |stages| ==> stages[..stage] == stages;
      ok := stage == |stages| && exitCode == 0;
    }
  }

  /** Some clean sequence of reads whose marker payloads begin with all the stages. */
  ghost predicate Announced(marker: Bytes, stages: seq<Bytes>, pipe: seq<Bytes>) {
    exists r :: 0 <= r <= |pipe| && Reached(marker, stages, pipe, r)
  }

  ghost predicate Reached(marker: Bytes, stages: seq<Bytes>, pipe: seq<Bytes>, r: nat)
    requires r <= |pipe|
  {
    Clean([], pipe[..r]) && stages <= Seen(marker, Flatten(pipe[..r]))
  }

  /** Whatever comes after the last stage is not looked at. */
  lemma {:induction false} LaterIgnored(marker: Bytes, stages: seq<Bytes>, pipe: seq<Bytes>, more: seq<Bytes>)
    requires Announced(marker, stages, pipe)
    ensures Announced(marker, stages, pipe + more)
  {
    var r :| 0 <= r <= |pipe| && Reached(marker, stages, pipe, r);
    assert (pipe + more)[..r] == pipe[..r];
    assert Reached(marker, stages, pipe + more, r);
  }

  /** A line that is the marker and a payload. */
  function MarkerLine(marker: Bytes, payload: Bytes): Bytes {
    marker + payload + [NEWLINE]
  }

  lemma {:induction false} MarkerLineSeen(marker: Bytes, payload: Bytes, rest: Bytes)
    requires NEWLINE !in marker && NEWLINE !in payload
    ensures Seen(marker, MarkerLine(marker, payload) + rest) == [payload] + Seen(marker, rest)
  {
    var line := marker + payload;
    SplitFirst(line, rest, NEWLINE);
    assert MarkerLine(marker, payload) + rest == line + [NEWLINE] + rest;
    assert Lines(line + [NEWLINE] + rest, NEWLINE) == [line] + Lines(rest, NEWLINE) by {
      DropLast([line], Split(rest, NEWLINE));
    }
    assert StartsWith(line, marker) && line[|marker|..] == payload;
    hide Lines;
    PayloadsAppend(marker, [line], Lines(rest, NEWLINE));
    assert Payloads(marker, [line]) == [payload];
  }

  /** A surplus marker after the last stage, foreign or repeated, in the same read: the
      conversation still succeeds. */
  lemma {:induction false} SurplusAccepted(marker: Bytes, stage: Bytes, surplus: Bytes)
    requires NEWLINE !in marker && NEWLINE !in stage && NEWLINE !in surplus
    requires |MarkerLine(marker, stage) + MarkerLine(marker, surplus)| <= MAX_OUTPUT
    ensures var output := MarkerLine(marker, stage) + MarkerLine(marker, surplus);
            Seen(marker, output) == [stage, surplus] && Announced(marker, [stage], [output])
  {
    var output := MarkerLine(marker, stage) + MarkerLine(marker, surplus);
    MarkerLineSeen(marker, stage, MarkerLine(marker, surplus));
    MarkerLineSeen(marker, surplus, []);
    assert MarkerLine(marker, surplus) + [] == MarkerLine(marker, surplus);
    assert Seen(marker, []) == [];
    assert Seen(marker, output) == [stage] + ([surplus] + []);
    FlattenSnoc([], output);
    assert [output][..1] == [] + [output] && Flatten<byte>([]) == [];
    assert [] + output == output && [] + Flatten([output]) == output;
    assert output != [] by { assert |output| > 0; }
    hide Seen, MarkerLine, Flatten;
    assert Reached(marker, [stage], [output], 1);
  }

  /** Why a refused `Expect` at `stage` rules the whole conversation out. */
  lemma {:induction false} Refused(marker: Bytes, stages: seq<Bytes>, pipe: seq<Bytes>, early: nat, at: nat, stage: nat)
    requires early <= at <= |pipe| && stage < |stages|
    requires forall i :: early <= i < at ==> |Seen(marker, Flatten(pipe[..i]))| <= stage
    requires var seen := Seen(marker, Flatten(pipe[..at]));
             || (stage < |seen| && seen[stage] != stages[stage])
             || !Clean([], pipe[..at])
             || (|seen| <= stage && at == |pipe|)
    requires early == at ==> Clean([], pipe[..at])
    ensures !Announced(marker, stages, pipe)
  {
    forall r | 0 <= r <= |pipe| ensures !Reached(marker, stages, pipe, r) {
      assert forall n :: 0 <= n <= |pipe| ==> [] + Flatten(pipe[..n]) == Flatten(pipe[..n]);
      if r < at {
        SeenOverReads(marker, [], pipe, r, at);
        if r < early { SeenOverReads(marker, [], pipe, r, early); }
      } else {
        SeenOverReads(marker, [], pipe, at, r);
      }
    }
  }

  /** Reads counted from the start of the conversation rather than from the last stage. */
  lemma {:induction false} ReadsCompose(marker: Bytes, stages: seq<Bytes>, pipe: seq<Bytes>, read: nat, taken: nat,
                                        stage: nat)
    requires read <= |pipe| && taken <= |pipe[read..]|
    requires Clean([], pipe[..read])
    requires Waiting(marker, Flatten(pipe[..read]), pipe[read..], taken, stage)
    ensures Flatten(pipe[..read]) + Flatten(pipe[read..][..taken]) == Flatten(pipe[..read + taken])
    ensures pipe[read..][taken..] == pipe[read + taken..]
    ensures Clean(Flatten(pipe[..read]), pipe[read..][..taken]) <==> Clean([], pipe[..read + taken])
    ensures forall n :: read <= n < read + taken ==> |Seen(marker, Flatten(pipe[..n]))| <= stage
  {
    var rest := pipe[read..];
    forall n | 0 <= n <= taken
      ensures Flatten(pipe[..read + n]) == Flatten(pipe[..read]) + Flatten(rest[..n])
    {
      assert pipe[..read + n] == pipe[..read] + rest[..n];
      FlattenAppend(pipe[..read], rest[..n]);
    }
    assert pipe[..read + taken] == pipe[..read] + rest[..taken];
    assert [] + Flatten(pipe[..read + taken]) == Flatten(pipe[..read + taken]);
    forall n | read <= n < read + taken ensures |Seen(marker, Flatten(pipe[..n]))| <= stage {
      assert Flatten(pipe[..read + (n - read)]) == Flatten(pipe[..read]) + Flatten(rest[..n - read]);
    }
  }

  lemma {:induction false} AllSeen(session: Session)
    requires session.Valid() && session.stage == |session.stages|
    ensures session.stages <= Seen(session.marker, session.received)
  {
    PayloadsAppend(session.marker, session.done, Lines(session.buffer, NEWLINE));
    assert session.stages[..session.stage] == session.stages;
  }

  /** The fixture's driver: every stage in turn, then finish. The outcome depends only on
      the bytes and on end of file and the limit, not on how the reads are cut. */
  method RunStages(session: Session, exitCode: int) returns (ok: bool)
    requires session.Valid() && session.stage == 0 && session.received == [] && session.buffer == []
    modifies session
    ensures ok <==> Announced(session.marker, session.stages, old(session.pipe)) && exitCode == 0
    ensures ok ==> session.Valid() && Payloads(session.marker, session.done) == session.stages
  {
    ghost var pipe, read: nat := session.pipe, 0;
    var i := 0;
    assert pipe[..0] == [];
    while i < |session.stages|
      invariant 0 <= i <= |session.stages| && session.Valid() && session.stage == i
      invariant read <= |pipe| && session.pipe == pipe[read..]
      invariant session.received == Flatten(pipe[..read])
      invariant Clean([], pipe[..read])
    {
      hide *;
      ghost var rest := session.pipe;
      var good, taken := session.Expect(session.stages[i]);
      ReadsCompose(session.marker, session.stages, pipe, read, taken, i);
      if !good {
        Refused(session.marker, session.stages, pipe, read, read + taken, i);
        return false;
      }
      read := read + taken;
      i := i + 1;
    }
    AllSeen(session);
    assert Reached(session.marker, session.stages, pipe, read);
    hide *;
    ok := session.Finish(exitCode);
  }

  /** One attempt to write: the pipe would block, or takes up to `size` bytes. */
  datatype WriteAttempt = WouldBlock | Wrote(size: nat)

  /** How much of `length` bytes the attempts deliver; None once an attempt stalls at 0 bytes. */
  ghost function Progressed(length: nat, attempts: seq<WriteAttempt>): (n: Option<nat>)
    ensures n.Some? ==> n.value <= length
  {
    if attempts == [] then Some(0)
    else
      var n := Progressed(length, attempts[..|attempts| - 1]);
      var last := attempts[|attempts| - 1];
      if n.None? || n.value == length || last.WouldBlock? then n
      else if last.size == 0 then None
      else Some(n.value + Min(last.size, length - n.value))
  }

  lemma {:induction false} ProgressedStable(length: nat, attempts: seq<WriteAttempt>, k: nat)
    requires k <= |attempts|
    ensures var n := Progressed(length, attempts[..k]);
            n.None? || n.value == length ==> Progressed(length, attempts) == n
    decreases |attempts|
  {
    if k == |attempts| {
      assert attempts[..k] == attempts;
    } else {
      ProgressedStable(length, attempts[..|attempts| - 1], k);
      assert attempts[..|attempts| - 1][..k] == attempts[..k];
    }
  }

  lemma {:induction false} ProgressedNone(length: nat)
    ensures Progressed(length, []) == Some(0)
  {
  }

  lemma {:induction false} ProgressedSnoc(length: nat, attempts: seq<WriteAttempt>, k: nat)
    requires k < |attempts|
    ensures var n, last := Progressed(length, attempts[..k]), attempts[k];
            Progressed(length, attempts[..k + 1])
              == if n.None? || n.value == length || last.WouldBlock? then n
                 else if last.size == 0 then None
                 else Some(n.value + Min(last.size, length - n.value))
  {
    assert attempts[..k + 1][..k] == attempts[..k];
  }

  /** `send`: exactly the argument reaches the child, through any partial writes. */
  method Send(data: Bytes, attempts: seq<WriteAttempt>) returns (ok: bool, delivered: Bytes)
    ensures ok <==> |data| <= MAX_SEND && data != [] && data[|data| - 1] == NEWLINE
                    && Progressed(|data|, attempts) == Some(|data|)
    ensures delivered <= data && (ok ==> delivered == data)
  {
    delivered := [];
    hide Progressed;
    ProgressedNone(|data|);
    if !(|data| <= MAX_SEND && data != [] && data[|data| - 1] == NEWLINE) {
      return false, delivered;
    }
    var rest, k := data, 0;
    assert attempts[..0] == [];
    while rest != []
      invariant 0 <= k <= |attempts|
      invariant delivered + rest == data
      invariant Progressed(|data|, attempts[..k]) == Some(|delivered|)
      decreases |attempts| - k
    {
      if k == |attempts| {
        assert attempts[..k] == attempts;
        return false, delivered;
      }
      ProgressedSnoc(|data|, attempts, k);
      if attempts[k].Wrote? {
        var size := Min(attempts[k].size, |rest|);
        if size == 0 {
          ProgressedStable(|data|, attempts, k + 1);
          return false, delivered;
        }
        delivered, rest := delivered + rest[..size], rest[size..];
      }
      k := k + 1;
    }
    ProgressedStable(|data|, attempts, k);
    ok := true;
  }
}
