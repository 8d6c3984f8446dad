/** What the stage recognisers look at and let pass, in terms of positions, sums and literal
    limits (scripts/openbao_2_6_4_sdk.py and scripts/openbao_2_7_consistency_sdk_lag.py). */
module StageMeaning {
  import opened Text
  import opened StageProgress
  import opened StageSession

  // ----- Lines

  /** The lines, each with its newline. */
  function Ended(lines: seq<Bytes>): Bytes {
    if lines == [] then [] else lines[0] + [10] + Ended(lines[1..])
  }

  /** The finished lines of the data, and the unfinished rest. */
  ghost predicate LinesOf(data: Bytes, lines: seq<Bytes>, rest: Bytes) {
    && data == Ended(lines) + rest
    && (forall k :: 0 <= k < |lines| ==> 10 !in lines[k]) && 10 !in rest
  }

  lemma {:induction false} EndedJoin(lines: seq<Bytes>, rest: Bytes)
    ensures Ended(lines) + rest == Join(lines + [rest], NEWLINE)
  {
    if lines == [] {
      assert [rest] == lines + [rest];
    } else {
      EndedJoin(lines[1..], rest);
      AppendHead(lines, [rest]);
      AppendAssoc(lines[0] + [10], Ended(lines[1..]), rest);
    }
  }

  lemma {:induction false} LinesMean(data: Bytes, lines: seq<Bytes>, rest: Bytes)
    ensures LinesOf(data, lines, rest) <==> lines == Lines(data, NEWLINE) && rest == Tail(data, NEWLINE)
  {
    EndedJoin(lines, rest);
    hide Ended;
    if LinesOf(data, lines, rest) {
      SplitJoin(lines + [rest], NEWLINE);
      hide Join;
      assert Split(data, NEWLINE) == lines + [rest];
    }
    if lines == Lines(data, NEWLINE) && rest == Tail(data, NEWLINE) {
      SplitPieces(data, NEWLINE);
      JoinSplit(data, NEWLINE);
      FrontLast(Split(data, NEWLINE));
    }
  }

  /** `at` lists the positions of the lines that begin with the marker. */
  ghost predicate MarkedAt(at: seq<nat>, marker: Bytes, lines: seq<Bytes>) {
    && (forall n, m :: 0 <= n < m < |at| ==> at[n] < at[m])
    && (forall n :: 0 <= n < |at| ==> at[n] < |lines|)
    && (forall i: nat :: i < |lines| ==> (i in at <==> Begins(lines[i], marker)))
  }

  ghost predicate Begins(line: Bytes, marker: Bytes) {
    exists rest :: line == marker + rest
  }

  lemma {:induction false} BeginsIs(line: Bytes, marker: Bytes)
    ensures Begins(line, marker) <==> StartsWith(line, marker)
  {
    if StartsWith(line, marker) {
      assert line == marker + line[|marker|..];
    }
  }

  ghost predicate At(at: seq<nat>, lines: seq<Bytes>, found: seq<Bytes>) {
    |at| == |found| && forall n :: 0 <= n < |at| ==> at[n] < |lines| && found[n] == lines[at[n]]
  }

  lemma {:induction false} MarkedMeans(p: Protocol, lines: seq<Bytes>) returns (at: seq<nat>)
    ensures MarkedAt(at, p.marker, lines) && At(at, lines, Marked(p, lines))
  {
    at := [];
    if lines != [] {
      var n: nat := |lines| - 1;
      at := MarkedMeans(p, lines[..n]);
      FrontLast(lines);
      MarkedAppend(p, lines[..n], [lines[n]]);
      BeginsIs(lines[n], p.marker);
      MarkedOne(p, lines[n]);
      MarkedStep(at, p.marker, lines, n);
      AtStep(at, lines, Marked(p, lines[..n]), n);
      hide Marked, MarkedAt, At, Begins, StartsWith;
      if StartsWith(lines[n], p.marker) {
        at := at + [n];
      } else {
        assert Marked(p, lines[..n]) + [] == Marked(p, lines[..n]);
      }
    }
  }

  lemma {:induction false} AtStep(at: seq<nat>, lines: seq<Bytes>, found: seq<Bytes>, n: nat)
    requires |lines| == n + 1 && At(at, lines[..n], found)
    ensures At(at, lines, found) && At(at + [n], lines, found + [lines[n]])
  {
  }

  lemma {:induction false} MarkedOne(p: Protocol, line: Bytes)
    ensures Marked(p, [line]) == if StartsWith(line, p.marker) then [line] else []
  {
  }

  lemma {:induction false} MarkedStep(at: seq<nat>, marker: Bytes, lines: seq<Bytes>, n: nat)
    requires |lines| == n + 1 && MarkedAt(at, marker, lines[..n])
    ensures MarkedAt(if Begins(lines[n], marker) then at + [n] else at, marker, lines)
  {
    hide Begins;
    assert forall i :: 0 <= i < n ==> lines[..n][i] == lines[i];
    assert forall j :: 0 <= j < |at| ==> at[j] in at;
    forall i ensures i in at + [n] <==> i in at || i == n {}
  }

  /** The marker lines among the finished lines of the data are these. */
  ghost predicate MarkerLines(marker: Bytes, data: Bytes, found: seq<Bytes>) {
    exists lines, rest, at :: LinesOf(data, lines, rest) && MarkedAt(at, marker, lines) && At(at, lines, found)
  }

  lemma {:induction false} MarkerLinesIs(p: Protocol, data: Bytes, found: seq<Bytes>)
    ensures MarkerLines(p.marker, data, found) <==> found == StageLines(p, data)
  {
    var lines, rest := Lines(data, NEWLINE), Tail(data, NEWLINE);
    LinesMean(data, lines, rest);
    var at := MarkedMeans(p, lines);
    hide LinesOf, Marked, Lines, Tail;
    if l, r, a :| LinesOf(data, l, r) && MarkedAt(a, p.marker, l) && At(a, l, found) {
      LinesMean(data, l, r);
      SamePlaces(p.marker, lines, at, a);
    }
  }

  lemma {:induction false} SamePlaces(marker: Bytes, lines: seq<Bytes>, a: seq<nat>, b: seq<nat>)
    requires MarkedAt(a, marker, lines) && MarkedAt(b, marker, lines)
    ensures a == b
  {
    hide Begins;
    forall i ensures i in a <==> i in b {
      assert i in a || i in b ==> i < |lines|;
    }
    SameAscending(a, b);
  }

  // ----- The pipes of the exchange

  /** What the writable events let through, in writes of at most 4096 bytes. */
  function Room(script: seq<IoEvent>): nat {
    if script == [] then 0
    else
      var last := script[|script| - 1];
      Room(script[..|script| - 1])
        + (if last.Writable? then if last.size < 4096 then last.size else 4096 else 0)
  }

  /** Some write let the rest of the payload through. */
  ghost predicate AllWritten(length: nat, script: seq<IoEvent>) {
    exists k: nat :: k < |script| && script[k].Writable? && Room(script[..k + 1]) >= length
  }

  ghost predicate EndRead(script: seq<IoEvent>) {
    Readable([]) in script
  }

  /** The reads before the end of file. */
  function Reads(script: seq<IoEvent>): seq<Bytes> {
    if script == [] then []
    else
      var n := |script| - 1;
      Reads(script[..n]) + (if script[n].Readable? && Readable([]) !in script[..n + 1] then [script[n].chunk] else [])
  }

  lemma {:induction false} WrittenStep(length: nat, script: seq<IoEvent>, n: nat)
    requires |script| == n + 1
    ensures AllWritten(length, script) <==>
              AllWritten(length, script[..n]) || (script[n].Writable? && Room(script) >= length)
  {
    assert script[..n + 1] == script;
    hide Room;
    if AllWritten(length, script[..n]) {
      var k: nat :| k < n && script[..n][k].Writable? && Room(script[..n][..k + 1]) >= length;
      assert script[..n][..k + 1] == script[..k + 1];
      assert script[k].Writable? && Room(script[..k + 1]) >= length;
    }
    if AllWritten(length, script) {
      var k: nat :| k < |script| && script[k].Writable? && Room(script[..k + 1]) >= length;
      if k < n {
        assert script[..n][..k + 1] == script[..k + 1];
        assert script[..n][k].Writable? && Room(script[..n][..k + 1]) >= length;
      }
    }
  }

  lemma {:induction false} PumpMeans(length: nat, script: seq<IoEvent>)
    ensures var s := Pump(length, script);
            && s.offset == (if Room(script) < length then Room(script) else length)
            && (!s.stdinOpen <==> AllWritten(length, script))
            && (!s.stdoutOpen <==> EndRead(script))
            && s.chunks == Reads(script)
  {
    if script != [] {
      var n: nat := |script| - 1;
      PumpMeans(length, script[..n]);
      FrontLast(script);
      WrittenStep(length, script, n);
      assert script[..n + 1] == script;
      hide AllWritten;
    }
  }

  // ----- The exchange

  /** A chunking the recogniser lets pass to the end: the limits hold at every cut, and the
      marker lines are the marker and the stages, in order. */
  ghost predicate Passes(p: Protocol, chunks: seq<Bytes>) {
    && |Flatten(chunks)| <= 65536
    && (exists found :: MarkerLines(p.marker, Flatten(chunks), found) && AreLabels(p, found))
    && forall k: nat :: 0 < k <= |chunks| ==> RestAt(Flatten(chunks[..k]), 1024)
  }

  ghost predicate AreLabels(p: Protocol, found: seq<Bytes>) {
    |found| == |p.stages| && forall i :: 0 <= i < |found| ==> found[i] == p.marker + p.stages[i]
  }

  lemma {:induction false} AreLabelsIs(p: Protocol, found: seq<Bytes>)
    ensures AreLabels(p, found) <==> found == Labels(p)
  {
  }

  /** The unfinished line has at most `limit` bytes. */
  ghost predicate RestAt(data: Bytes, limit: nat) {
    exists lines, rest :: LinesOf(data, lines, rest) && |rest| <= limit
  }

  lemma {:induction false} RestIs(data: Bytes, limit: nat)
    ensures RestAt(data, limit) <==> |Tail(data, NEWLINE)| <= limit
  {
    LinesMean(data, Lines(data, NEWLINE), Tail(data, NEWLINE));
    hide LinesOf, Lines, Tail;
    if lines, rest :| LinesOf(data, lines, rest) && |rest| <= limit {
      LinesMean(data, lines, rest);
    }
  }

  lemma {:induction false} PassesIs(p: Protocol, chunks: seq<Bytes>)
    ensures Passes(p, chunks) <==> Complete(p, chunks)
  {
    AcceptsIff(p, chunks);
    var labels := StageLines(p, Flatten(chunks));
    MarkerLinesIs(p, Flatten(chunks), labels);
    AreLabelsIs(p, labels);
    forall found ensures MarkerLines(p.marker, Flatten(chunks), found) <==> found == labels {
      MarkerLinesIs(p, Flatten(chunks), found);
    }
    forall k: nat | 0 < k <= |chunks|
      ensures RestAt(Flatten(chunks[..k]), 1024) <==> |Tail(Flatten(chunks[..k]), NEWLINE)| <= MAX_TAIL
    {
      RestIs(Flatten(chunks[..k]), 1024);
    }
    hide Accepts, Flatten, Tail, Lines, RestAt, MarkerLines, StageLines, Labels, AreLabels;
  }

  /** `exchange`: it succeeds exactly when the whole payload is written and the end of the
      output read before the deadline, the output passes and the child exits with 0. */
  method RunExchange(p: Protocol, payload: Bytes, script: seq<IoEvent>, exitCode: int)
    returns (ok: bool, delivered: Bytes)
    ensures ok <==> AllWritten(|payload|, script) && EndRead(script) && exitCode == 0 && Passes(p, Reads(script))
    ensures ok ==> delivered == payload
    ensures delivered <= payload
  {
    var progress := new Progress(p);
    ok, delivered := Exchange(progress, payload, script, exitCode);
    PumpMeans(|payload|, script);
    PassesIs(p, Reads(script));
    hide Pump, AllWritten, EndRead, Passes, Complete, Reads;
  }

  // ----- The session

  /** What follows the first place at which the marker stands in the line. */
  ghost predicate Follows(marker: Bytes, line: Bytes, payload: Bytes) {
    exists before :: line == before + marker + payload
                     && forall i: nat :: i < |before| ==> !StandsAt(marker, line, i)
  }

  ghost predicate StandsAt(marker: Bytes, line: Bytes, i: nat) {
    exists before, after :: |before| == i && line == before + marker + after
  }

  ghost predicate Stands(marker: Bytes, line: Bytes) {
    exists i: nat :: StandsAt(marker, line, i)
  }

  lemma {:induction false} StandsIs(marker: Bytes, line: Bytes, i: nat)
    ensures StandsAt(marker, line, i) <==> i <= |line| && StartsWith(line[i..], marker)
  {
    if i <= |line| && StartsWith(line[i..], marker) {
      assert line == line[..i] + marker + line[i + |marker|..];
    }
    if before, after :| |before| == i && line == before + marker + after {
      assert line[i..] == marker + after;
    }
  }

  lemma {:induction false} PayloadMeans(marker: Bytes, line: Bytes)
    ensures Payload(marker, line).Some? <==> Stands(marker, line)
    ensures forall x :: Payload(marker, line) == Some(x) <==> Follows(marker, line, x)
  {
    FindFirst(line, marker);
    forall i: nat ensures StandsAt(marker, line, i) <==> i <= |line| && StartsWith(line[i..], marker) {
      StandsIs(marker, line, i);
    }
    hide Find, StartsWith, StandsAt;
    var at := Find(line, marker);
    if at.Some? {
      assert StandsAt(marker, line, at.value);
      Cuts(marker, line, at.value);
    }
    forall x | Follows(marker, line, x) ensures Payload(marker, line) == Some(x) {
      var before :| line == before + marker + x && forall i: nat :: i < |before| ==> !StandsAt(marker, line, i);
      CutAt(marker, line, before, x);
    }
  }

  lemma {:induction false} Cuts(marker: Bytes, line: Bytes, i: nat)
    requires i <= |line| && StartsWith(line[i..], marker)
    ensures i + |marker| <= |line| && line == line[..i] + marker + line[i + |marker|..]
  {
  }

  lemma {:induction false} CutAt(marker: Bytes, line: Bytes, before: Bytes, x: Bytes)
    requires line == before + marker + x
    ensures |before| <= |line| && StartsWith(line[|before|..], marker) && x == line[|before| + |marker|..]
  {
    assert line[|before|..] == marker + x;
  }

  /** `at` lists the positions of the lines in which the marker stands, and `payloads` what
      follows it there. */
  ghost predicate Announces(at: seq<nat>, marker: Bytes, lines: seq<Bytes>, payloads: seq<Bytes>) {
    && |at| == |payloads|
    && (forall n, m :: 0 <= n < m < |at| ==> at[n] < at[m])
    && (forall n :: 0 <= n < |at| ==> at[n] < |lines| && Follows(marker, lines[at[n]], payloads[n]))
    && (forall i: nat :: i < |lines| && Stands(marker, lines[i]) ==> i in at)
  }

  lemma {:induction false} PayloadsMean(marker: Bytes, lines: seq<Bytes>) returns (at: seq<nat>)
    ensures Announces(at, marker, lines, Payloads(marker, lines))
  {
    at := [];
    hide Follows, Stands, Payload;
    if lines != [] {
      var n: nat := |lines| - 1;
      at := PayloadsMean(marker, lines[..n]);
      FrontLast(lines);
      PayloadsAppend(marker, lines[..n], [lines[n]]);
      PayloadMeans(marker, lines[n]);
      PayloadsOne(marker, lines[n]);
      AnnounceStep(at, marker, lines, Payloads(marker, lines[..n]), n);
      hide Payloads, Announces;
      if Payload(marker, lines[n]).Some? {
        at := at + [n];
      } else {
        assert Payloads(marker, lines[..n]) + [] == Payloads(marker, lines[..n]);
      }
    }
  }

  lemma {:induction false} PayloadsOne(marker: Bytes, line: Bytes)
    ensures Payloads(marker, [line])
         == if Payload(marker, line).Some? then [Payload(marker, line).value] else []
  {
    hide Payload;
  }

  lemma {:induction false} AnnounceStep(at: seq<nat>, marker: Bytes, lines: seq<Bytes>, payloads: seq<Bytes>, n: nat)
    requires |lines| == n + 1 && Announces(at, marker, lines[..n], payloads)
    ensures !Stands(marker, lines[n]) ==> Announces(at, marker, lines, payloads)
    ensures forall x :: Follows(marker, lines[n], x) ==> Announces(at + [n], marker, lines, payloads + [x])
  {
    hide Follows, Stands;
    assert forall i :: 0 <= i < n ==> lines[..n][i] == lines[i];
    forall i | i in at || i == n ensures i in at + [n] {}
  }

  /** The payloads of the finished lines of the data, in order. */
  ghost predicate Payloaded(marker: Bytes, data: Bytes, payloads: seq<Bytes>) {
    exists lines, rest, at :: LinesOf(data, lines, rest) && Announces(at, marker, lines, payloads)
  }

  lemma {:induction false} PayloadedIs(marker: Bytes, data: Bytes, payloads: seq<Bytes>)
    ensures Payloaded(marker, data, payloads) <==> payloads == Seen(marker, data)
  {
    var lines, rest := Lines(data, NEWLINE), Tail(data, NEWLINE);
    LinesMean(data, lines, rest);
    var at := PayloadsMean(marker, lines);
    hide LinesOf, Payloads, Lines, Tail, Announces;
    if l, r, a :| LinesOf(data, l, r) && Announces(a, marker, l, payloads) {
      LinesMean(data, l, r);
      OnePayloads(marker, lines, at, Payloads(marker, lines), a, payloads);
    }
  }

  lemma {:induction false} OnePayloads(marker: Bytes, lines: seq<Bytes>, a: seq<nat>, x: seq<Bytes>, b: seq<nat>,
                                       y: seq<Bytes>)
    requires Announces(a, marker, lines, x) && Announces(b, marker, lines, y)
    ensures x == y
  {
    forall i: nat | i < |lines|
      ensures Payload(marker, lines[i]).Some? <==> Stands(marker, lines[i])
      ensures forall p :: Payload(marker, lines[i]) == Some(p) <==> Follows(marker, lines[i], p)
    {
      PayloadMeans(marker, lines[i]);
    }
    hide Payload, Stands, Follows;
    SameAscending(a, b);
  }

  /** Some number of reads, none of them at the end of the output and at most 16384 bytes
      together, whose payloads begin with the stages. */
  ghost predicate Conversation(marker: Bytes, stages: seq<Bytes>, pipe: seq<Bytes>) {
    exists r: nat :: r <= |pipe| && TalksTo(marker, stages, pipe[..r])
  }

  ghost predicate TalksTo(marker: Bytes, stages: seq<Bytes>, chunks: seq<Bytes>) {
    && [] !in chunks && |Flatten(chunks)| <= 16384
    && exists payloads :: Payloaded(marker, Flatten(chunks), payloads) && stages <= payloads
  }

  lemma {:induction false} TalksIs(marker: Bytes, stages: seq<Bytes>, pipe: seq<Bytes>, r: nat)
    requires r <= |pipe|
    ensures TalksTo(marker, stages, pipe[..r]) <==> Reached(marker, stages, pipe, r)
  {
    var data := Flatten(pipe[..r]);
    assert [] + data == data;
    hide Flatten, Seen, Payloaded;
    forall payloads ensures Payloaded(marker, data, payloads) <==> payloads == Seen(marker, data) {
      PayloadedIs(marker, data, payloads);
    }
    assert Payloaded(marker, data, Seen(marker, data));
  }

  /** The conversation with the child, from its first stage to its exit. */
  method Converse(marker: Bytes, stages: seq<Bytes>, pipe: seq<Bytes>, exitCode: int) returns (ok: bool)
    ensures ok <==> Conversation(marker, stages, pipe) && exitCode == 0
  {
    var session := new Session(marker, stages, pipe);
    ok := RunStages(session, exitCode);
    forall r: nat | r <= |pipe| ensures TalksTo(marker, stages, pipe[..r]) <==> Reached(marker, stages, pipe, r) {
      TalksIs(marker, stages, pipe, r);
    }
    hide TalksTo, Reached;
  }

  // ----- Sending

  /** The bytes the attempts offer to take. */
  function Taken(attempts: seq<WriteAttempt>): nat {
    if attempts == [] then 0
    else
      var last := attempts[|attempts| - 1];
      Taken(attempts[..|attempts| - 1]) + (if last.Wrote? then last.size else 0)
  }

  /** An attempt takes nothing while bytes are left. */
  ghost predicate Stalls(length: nat, attempts: seq<WriteAttempt>) {
    exists k: nat :: k < |attempts| && attempts[k] == Wrote(0) && Taken(attempts[..k]) < length
  }

  lemma {:induction false} ProgressMeans(length: nat, attempts: seq<WriteAttempt>)
    ensures var n, taken := Progressed(length, attempts), Taken(attempts);
            && (n.None? <==> Stalls(length, attempts))
            && (n.Some? ==> n.value == if taken < length then taken else length)
  {
    if attempts != [] {
      var n: nat := |attempts| - 1;
      ProgressMeans(length, attempts[..n]);
      StallStep(length, attempts, n);
      hide Stalls;
    }
  }

  lemma {:induction false} StallStep(length: nat, attempts: seq<WriteAttempt>, n: nat)
    requires |attempts| == n + 1
    ensures Stalls(length, attempts) <==>
              Stalls(length, attempts[..n]) || (attempts[n] == Wrote(0) && Taken(attempts[..n]) < length)
  {
    hide Taken;
    if Stalls(length, attempts[..n]) {
      var k: nat :| k < n && attempts[..n][k] == Wrote(0) && Taken(attempts[..n][..k]) < length;
      assert attempts[..n][..k] == attempts[..k];
    }
    if Stalls(length, attempts) {
      var k: nat :| k < |attempts| && attempts[k] == Wrote(0) && Taken(attempts[..k]) < length;
      if k < n {
        assert attempts[..n][..k] == attempts[..k];
        assert attempts[..n][k] == Wrote(0);
      }
    }
  }

  /** `send`: refused for more than 65536 bytes or without a final newline; otherwise all of
      it is delivered unless an attempt stalls or they run out first. */
  method SendAll(data: Bytes, attempts: seq<WriteAttempt>) returns (ok: bool, delivered: Bytes)
    ensures ok <==> && 0 < |data| <= 65536 && data[|data| - 1] == 10
                    && !Stalls(|data|, attempts) && Taken(attempts) >= |data|
    ensures delivered <= data && (ok ==> delivered == data)
  {
    ok, delivered := Send(data, attempts);
    ProgressMeans(|data|, attempts);
    hide Progressed, Stalls, Taken;
  }
}
