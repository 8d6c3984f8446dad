/** What the CI profile, the record checks and the aggregate report say, in literal texts,
    positions and sizes of sets (scripts/openbao_ci_matrix.py). */
module CiMeaning {
  import opened Text
  import opened Versions
  import opened CiMatrix
  import opened CiAggregate

  // ----- Profiles

  /** No earlier release is on the same minor line. */
  ghost predicate Opens(versions: seq<Version>, i: nat)
    requires i < |versions|
  {
    forall j: nat :: j < i ==> !SameLine(versions[j], versions[i])
  }

  /** No later release is on the same minor line. */
  ghost predicate Closes(versions: seq<Version>, i: nat)
    requires i < |versions|
  {
    forall j: nat :: i < j < |versions| ==> !SameLine(versions[j], versions[i])
  }

  predicate SameLine(a: Version, b: Version) {
    a.major == b.major && a.minor == b.minor
  }

  /** `firsts` lists the positions, below `n`, at which a minor line appears first. */
  ghost predicate FirstOnes(firsts: seq<nat>, versions: seq<Version>, n: nat)
    requires n <= |versions|
  {
    && (forall j, k :: 0 <= j < k < |firsts| ==> firsts[j] < firsts[k])
    && (forall i :: i in firsts ==> i < n)
    && (forall i: nat :: i < n ==> (i in firsts <==> Opens(versions, i)))
  }

  ghost predicate OrderIs(d: Latest, firsts: seq<nat>, versions: seq<Version>) {
    && |d.order| == |firsts|
    && forall k :: 0 <= k < |firsts| ==> firsts[k] < |versions| && d.order[k] == LineOf(versions[firsts[k]])
  }

  lemma {:induction false} FoldFirsts(texts: seq<string>, versions: seq<Version>, n: nat) returns (firsts: seq<nat>)
    requires |texts| == |versions| && n <= |versions|
    ensures FirstOnes(firsts, versions, n) && OrderIs(Fold(texts, versions, n), firsts, versions)
  {
    firsts := [];
    if n > 0 {
      var d, last: nat := Fold(texts, versions, n - 1), n - 1;
      firsts := FoldFirsts(texts, versions, last);
      FoldHolds(texts, versions, last);
      EntryOpens(d, texts, versions, last);
      SoundLast(d, texts, versions, last);
      FirstStep(firsts, versions, last);
      OrderStep(d, firsts, versions, last, texts[last]);
      FoldNext(texts, versions, n);
      hide FirstOnes, OrderIs, Fold, Opens, LineOf, Put, HoldsLast;
      if Opens(versions, last) {
        firsts := firsts + [last];
      }
    }
  }

  lemma {:induction false} SoundLast(d: Latest, texts: seq<string>, versions: seq<Version>, n: nat)
    requires |texts| == |versions| && n <= |versions| && HoldsLast(d, texts, versions, n)
    ensures Sound(d)
  {
  }

  lemma {:induction false} OrderStep(d: Latest, firsts: seq<nat>, versions: seq<Version>, last: nat, text: string)
    requires last < |versions| && OrderIs(d, firsts, versions)
    requires LineOf(versions[last]) in d.entries <==> !Opens(versions, last)
    ensures OrderIs(Put(d, LineOf(versions[last]), text), if Opens(versions, last) then firsts + [last] else firsts,
                    versions)
  {
    hide Opens;
  }

  lemma {:induction false} FoldNext(texts: seq<string>, versions: seq<Version>, n: nat)
    requires |texts| == |versions| && 0 < n <= |versions|
    ensures Fold(texts, versions, n) == Put(Fold(texts, versions, n - 1), LineOf(versions[n - 1]), texts[n - 1])
  {
  }

  lemma {:induction false} FirstStep(firsts: seq<nat>, versions: seq<Version>, last: nat)
    requires last < |versions| && FirstOnes(firsts, versions, last)
    ensures FirstOnes(if Opens(versions, last) then firsts + [last] else firsts, versions, last + 1)
  {
    hide Opens;
    assert forall j :: 0 <= j < |firsts| ==> firsts[j] in firsts;
    forall i ensures i in firsts + [last] <==> i in firsts || i == last {}
  }

  /** A line is in the dictionary as soon as a release has it. */
  lemma {:induction false} EntryOpens(d: Latest, texts: seq<string>, versions: seq<Version>, n: nat)
    requires |texts| == |versions| && n < |versions| && HoldsLast(d, texts, versions, n)
    ensures LineOf(versions[n]) in d.entries <==> !Opens(versions, n)
  {
    var last := LastAt(versions, LineOf(versions[n]), n);
    hide LastAt;
    if last.Some? {
      assert SameLine(versions[last.value], versions[n]);
    }
  }

  /** The lines in order of appearance, each by its last listed release. */
  ghost predicate ByLine(texts: seq<string>, versions: seq<Version>, list: seq<string>, firsts: seq<nat>,
                         lasts: seq<nat>) {
    && |texts| == |versions| && |list| == |firsts| == |lasts| && FirstOnes(firsts, versions, |versions|)
    && forall k :: 0 <= k < |list| ==>
         && lasts[k] < |versions| && firsts[k] < |versions| && SameLine(versions[lasts[k]], versions[firsts[k]])
         && Closes(versions, lasts[k]) && list[k] == texts[lasts[k]]
  }

  lemma {:induction false} ValuesByLine(texts: seq<string>, versions: seq<Version>)
    returns (firsts: seq<nat>, lasts: seq<nat>)
    requires |texts| == |versions|
    ensures ByLine(texts, versions, Values(Fold(texts, versions, |texts|)), firsts, lasts)
  {
    var d := Fold(texts, versions, |texts|);
    firsts := FoldFirsts(texts, versions, |texts|);
    FoldHolds(texts, versions, |texts|);
    hide Fold, FirstOnes;
    lasts := [];
    while |lasts| < |firsts|
      invariant |lasts| <= |firsts|
      invariant forall k :: 0 <= k < |lasts| ==>
        && lasts[k] < |versions| && firsts[k] < |versions| && SameLine(versions[lasts[k]], versions[firsts[k]])
        && Closes(versions, lasts[k]) && Values(d)[k] == texts[lasts[k]]
    {
      var k := |lasts|;
      assert d.order[k] in d.order;
      var last := LastAt(versions, d.order[k], |texts|);
      lasts := lasts + [last.value];
    }
  }

  lemma {:induction false} OneByLine(texts: seq<string>, versions: seq<Version>, a: seq<string>, af: seq<nat>,
                                     al: seq<nat>, b: seq<string>, bf: seq<nat>, bl: seq<nat>)
    requires ByLine(texts, versions, a, af, al) && ByLine(texts, versions, b, bf, bl)
    ensures a == b
  {
    SameAscending(af, bf);
    forall k | 0 <= k < |a| ensures a[k] == b[k] {
      assert SameLine(versions[al[k]], versions[bl[k]]);
    }
  }

  /** The first release, and then the last one of every line in order of appearance, except
      the first release again. */
  ghost predicate Represents(texts: seq<string>, versions: seq<Version>, r: seq<string>) {
    exists list, firsts, lasts ::
      && ByLine(texts, versions, list, firsts, lasts) && list != [] && texts != []
      && r == [texts[0]] + (if list[0] == texts[0] then list[1..] else list)
  }

  lemma {:induction false} OthersNone(list: seq<string>, first: string)
    requires first !in list
    ensures Others(list, first) == list
  {
    if list != [] {
      FrontLast(list);
      OthersNone(list[..|list| - 1], first);
    }
  }

  lemma {:induction false} OthersFirst(list: seq<string>, first: string)
    requires list != [] && first !in list[1..]
    ensures Others(list, first) == if list[0] == first then list[1..] else list
  {
    if |list| == 1 {
      OthersOne(first);
      assert list == [list[0]];
      OthersSnoc([], list[0], first);
      assert [] + [list[0]] == list;
    } else {
      var front, last := list[..|list| - 1], list[|list| - 1];
      FrontLast(list);
      assert front[1..] + [last] == list[1..] && last in list[1..];
      OthersFirst(front, first);
      OthersSnoc(front, last, first);
    }
  }

  /** Releases of different lines have different names. */
  lemma {:induction false} NamesDiffer(texts: seq<string>, i: nat, j: nat)
    requires Canonical(texts) && i < |texts| && j < |texts|
    requires !SameLine(VersionsOf(texts)[i], VersionsOf(texts)[j])
    ensures texts[i] != texts[j]
  {
  }

  lemma {:induction false} LinesDiffer(versions: seq<Version>, firsts: seq<nat>, j: nat, k: nat)
    requires FirstOnes(firsts, versions, |versions|) && j < k < |firsts|
    ensures firsts[j] < firsts[k] < |versions| && !SameLine(versions[firsts[j]], versions[firsts[k]])
  {
    assert firsts[k] in firsts;
  }

  lemma {:induction false} ListDistinct(texts: seq<string>, versions: seq<Version>, list: seq<string>,
                                        firsts: seq<nat>, lasts: seq<nat>)
    requires Canonical(texts) && versions == VersionsOf(texts) && texts != []
    requires ByLine(texts, versions, list, firsts, lasts)
    ensures Distinct(list) && list != [] && texts[0] !in list[1..]
  {
    hide Canonical, VersionsOf, FirstOnes, Closes;
    forall j, k | 0 <= j < k < |list| ensures list[j] != list[k] {
      LinesDiffer(versions, firsts, j, k);
      NamesDiffer(texts, lasts[j], lasts[k]);
    }
    StartsFirst(versions, firsts);
    forall k | 1 <= k < |list| ensures list[k] != texts[0] {
      LinesDiffer(versions, firsts, 0, k);
      NamesDiffer(texts, 0, lasts[k]);
    }
  }

  lemma {:induction false} StartsFirst(versions: seq<Version>, firsts: seq<nat>)
    requires versions != [] && FirstOnes(firsts, versions, |versions|)
    ensures firsts != [] && firsts[0] == 0
  {
    assert Opens(versions, 0);
    assert 0 in firsts;
  }

  lemma {:induction false} RepresentsIs(texts: seq<string>, r: seq<string>)
    requires texts != [] && Canonical(texts)
    ensures Represents(texts, VersionsOf(texts), r) <==> r == Representative(texts)
  {
    var versions := VersionsOf(texts);
    var list := Values(Fold(texts, versions, |texts|));
    var firsts, lasts := ValuesByLine(texts, versions);
    ListDistinct(texts, versions, list, firsts, lasts);
    DedupDistinct(texts[0], list);
    OthersFirst(list, texts[0]);
    hide Canonical, VersionsOf, Values, Fold, ByLine, Dedup, Others, Distinct;
    if l, f, s :| ByLine(texts, versions, l, f, s) && l != [] && texts != []
                  && r == [texts[0]] + (if l[0] == texts[0] then l[1..] else l) {
      OneByLine(texts, versions, l, f, s, list, firsts, lasts);
    }
  }

  /** The releases have these numbers. */
  ghost predicate Named(texts: seq<string>, versions: seq<Version>) {
    |texts| == |versions| && forall i :: 0 <= i < |texts| ==> texts[i] == Render(versions[i])
  }

  lemma {:induction false} NamedIs(texts: seq<string>, versions: seq<Version>)
    ensures Named(texts, versions) <==> Canonical(texts) && versions == VersionsOf(texts)
  {
    hide Render, ParseVersion;
    if |texts| == |versions| {
      forall i | 0 <= i < |texts|
        ensures ParseVersion(texts[i]) == Some(versions[i]) <==> texts[i] == Render(versions[i])
      {
        ParseIsRenderInverse(texts[i], versions[i]);
      }
    }
  }

  /** What a profile name selects: `all` takes every release, and `representative` those above
      when they are two or more. Without releases nothing is selected. */
  ghost predicate Picks(profile: string, texts: seq<string>, r: seq<string>) {
    && texts != []
    && match profile
       case "all" => r == texts
       case "representative" => |r| >= 2 && exists versions :: Named(texts, versions) && Represents(texts, versions, r)
       case _ => false
  }

  lemma {:induction false} PicksIs(profile: string, texts: seq<string>, r: seq<string>)
    ensures Picks(profile, texts, r) <==> Profile(profile, texts) == Some(r)
  {
    hide Represents, Representative, Named, Canonical, VersionsOf;
    if versions :| Named(texts, versions) && Represents(texts, versions, r) {
      NamedIs(texts, versions);
      if texts != [] {
        RepresentsIs(texts, r);
      }
    }
    if texts != [] && Canonical(texts) {
      NamedIs(texts, VersionsOf(texts));
      RepresentsIs(texts, r);
    }
    assert "all" != "representative";
  }

  // ----- Records

  /** The releases that run every flow. */
  predicate RunsAll(version: string) {
    version == "2.6.0" || version == "2.6.1" || version == "2.6.2" || version == "2.6.3"
  }

  /** A flow after the first eight is skipped, with its one reason, where not all are run;
      every other flow passed without one. */
  ghost predicate FlowFits(t: Tables, version: string, flow: Flow, id: string) {
    if !RunsAll(version) && exists k :: 8 <= k < |t.flows| && t.flows[k] == id
    then flow == Flow(id, "skipped", Some("server-operation-unavailable"), Some("expected-server-difference"))
    else flow == Flow(id, "passed", None, None)
  }

  /** The class of a failure reason. The reason for missing results is known only where it is
      allowed. */
  ghost predicate Classified(t: Tables, reason: string, kind: string, allowCi: bool) {
    if allowCi && reason == "ci-result-missing-or-invalid" then kind == "infrastructure-problem"
    else reason in t.reasons && kind == t.reasons[reason]
  }

  /** The record of a release, passed with all its flows or failed for a known reason. */
  ghost predicate RecordFits(t: Tables, release: Release, record: Record, allowCi: bool) {
    && record.version == release.version && record.digest == release.digest
    && match record.outcome
       case "passed" =>
         && record.reported == Some(release.version) && record.compatibility == "tested-subset"
         && record.testCount > 0 && record.failureClass == None && record.reason == None
         && |record.flows| == |t.flows|
         && forall k :: 0 <= k < |t.flows| ==> FlowFits(t, release.version, record.flows[k], t.flows[k])
       case "failed" =>
         && record.reported == None && record.compatibility == "unverified"
         && record.testCount == 0 && record.flows == []
         && record.failureClass != None && record.reason != None
         && Classified(t, record.reason.value, record.failureClass.value, allowCi)
       case _ => false
  }

  lemma {:induction false} SkipIs(t: Tables, version: string, id: string)
    ensures ShouldSkip(t, version, id) <==> !RunsAll(version) && exists k :: 8 <= k < |t.flows| && t.flows[k] == id
  {
    if 8 <= |t.flows| {
      if k :| 8 <= k < |t.flows| && t.flows[k] == id {
        assert t.flows[8..][k - 8] == id;
      }
    }
  }

  lemma {:induction false} FlowFitsIs(t: Tables, version: string, flow: Flow, id: string)
    ensures FlowFits(t, version, flow, id) <==>
              flow.id == id && FlowOk(flow) && ((flow.status == "skipped") == ShouldSkip(t, version, flow.id))
  {
    SkipIs(t, version, id);
    hide ShouldSkip, RunsAll;
    assert "passed" != "skipped";
  }

  lemma {:induction false} FlowsFitIs(t: Tables, version: string, flows: seq<Flow>)
    ensures FlowIds(flows) == t.flows && FlowsOk(t, version, flows) <==>
              |flows| == |t.flows| && forall k :: 0 <= k < |t.flows| ==> FlowFits(t, version, flows[k], t.flows[k])
  {
    hide FlowOk, FlowFits, ShouldSkip;
    if |flows| == |t.flows| {
      forall k | 0 <= k < |flows|
        ensures FlowFits(t, version, flows[k], t.flows[k]) <==>
                  && flows[k].id == t.flows[k] && FlowOk(flows[k])
                  && ((flows[k].status == "skipped") == ShouldSkip(t, version, flows[k].id))
      {
        FlowFitsIs(t, version, flows[k], t.flows[k]);
      }
    }
  }

  lemma {:induction false} FailingIs(t: Tables, record: Record, allowCi: bool)
    ensures FailingOk(t, record, allowCi) <==>
              && record.reported == None && record.compatibility == "unverified"
              && record.testCount == 0 && record.flows == []
              && record.failureClass != None && record.reason != None
              && Classified(t, record.reason.value, record.failureClass.value, allowCi)
  {
  }

  lemma {:induction false} RecordFitsIs(t: Tables, release: Release, record: Record, allowCi: bool)
    ensures RecordFits(t, release, record, allowCi) <==> RecordOk(t, release, record, allowCi)
  {
    FlowsFitIs(t, release.version, record.flows);
    FailingIs(t, record, allowCi);
    hide FlowsOk, FlowIds, FlowFits, FailingOk, Classified;
    assert "passed" != "failed";
  }

  // ----- Counts

  ghost function PassedAt(records: seq<Record>): set<nat> {
    set k: nat | k < |records| && records[k].outcome == "passed"
  }

  ghost function BrokenAt(records: seq<Record>): set<nat> {
    set k: nat | k < |records| && records[k].outcome != "passed"
                 && records[k].failureClass == Some("infrastructure-problem")
  }

  ghost function OtherAt(records: seq<Record>): set<nat> {
    set k: nat | k < |records| && records[k].outcome != "passed"
                 && records[k].failureClass != Some("infrastructure-problem")
  }

  ghost function DeliveredAt(records: seq<Record>): set<nat> {
    set k: nat | k < |records| && records[k].reason != Some("ci-result-missing-or-invalid")
  }

  /** Every record counted once, by its outcome and class. */
  ghost predicate SummaryFits(records: seq<Record>, s: Summary) {
    && s.expected == |records| && s.received == |DeliveredAt(records)| && s.passed == |PassedAt(records)|
    && s.compatibilityFailed == |OtherAt(records)| && s.infrastructureFailed == |BrokenAt(records)|
  }

  lemma {:induction false} KindMeans(record: Record)
    ensures KindOf(record) == Passed <==> record.outcome == "passed"
    ensures KindOf(record) == Infrastructure <==>
              record.outcome != "passed" && record.failureClass == Some("infrastructure-problem")
    ensures KindOf(record) == Incompatible <==>
              && record.outcome != "passed"
              && (|| record.failureClass == Some("crate-defect")
                  || record.failureClass == Some("expected-server-difference")
                  || record.failureClass == Some("security-policy-block"))
  {
    assert INFRASTRUCTURE !in COMPATIBILITY;
  }

  lemma {:induction false} CountsMean(records: seq<Record>)
    ensures Count(records, Passed) == |PassedAt(records)|
    ensures Count(records, Infrastructure) == |BrokenAt(records)|
    ensures Count(records, Incompatible) + Count(records, Unexplained) == |OtherAt(records)|
    ensures Delivered(records) == |DeliveredAt(records)|
  {
    if records == [] {
      assert PassedAt(records) == {} && BrokenAt(records) == {};
      assert OtherAt(records) == {} && DeliveredAt(records) == {};
    } else {
      var n := |records| - 1;
      CountsMean(records[..n]);
      KindMeans(records[n]);
      SetsStep(records, n);
      CountsLast(records);
      hide Count, Delivered, KindOf, PassedAt, BrokenAt, OtherAt, DeliveredAt;
    }
  }

  lemma {:induction false} SetsStep(records: seq<Record>, n: nat)
    requires |records| == n + 1
    ensures var front, last := records[..n], records[n];
            && |PassedAt(records)| == |PassedAt(front)| + (if last.outcome == "passed" then 1 else 0)
            && |BrokenAt(records)| == |BrokenAt(front)|
                 + (if last.outcome != "passed" && last.failureClass == Some("infrastructure-problem") then 1 else 0)
            && |OtherAt(records)| == |OtherAt(front)|
                 + (if last.outcome != "passed" && last.failureClass != Some("infrastructure-problem") then 1 else 0)
            && |DeliveredAt(records)| == |DeliveredAt(front)|
                 + (if last.reason != Some("ci-result-missing-or-invalid") then 1 else 0)
  {
    PassedStep(records, n);
    BrokenStep(records, n);
    OtherStep(records, n);
    DeliveredStep(records, n);
    hide PassedAt, BrokenAt, OtherAt, DeliveredAt;
  }

  lemma {:induction false} PassedStep(records: seq<Record>, n: nat)
    requires |records| == n + 1
    ensures |PassedAt(records)| == |PassedAt(records[..n])| + (if records[n].outcome == "passed" then 1 else 0)
  {
    assert PassedAt(records) == PassedAt(records[..n]) + (if records[n].outcome == "passed" then {n} else {});
  }

  lemma {:induction false} BrokenStep(records: seq<Record>, n: nat)
    requires |records| == n + 1
    ensures var last := records[n];
            |BrokenAt(records)| == |BrokenAt(records[..n])|
              + (if last.outcome != "passed" && last.failureClass == Some("infrastructure-problem") then 1 else 0)
  {
    var last := records[n];
    assert BrokenAt(records) == BrokenAt(records[..n])
      + (if last.outcome != "passed" && last.failureClass == Some("infrastructure-problem") then {n} else {});
  }

  lemma {:induction false} OtherStep(records: seq<Record>, n: nat)
    requires |records| == n + 1
    ensures var last := records[n];
            |OtherAt(records)| == |OtherAt(records[..n])|
              + (if last.outcome != "passed" && last.failureClass != Some("infrastructure-problem") then 1 else 0)
  {
    var last := records[n];
    assert OtherAt(records) == OtherAt(records[..n])
      + (if last.outcome != "passed" && last.failureClass != Some("infrastructure-problem") then {n} else {});
  }

  lemma {:induction false} DeliveredStep(records: seq<Record>, n: nat)
    requires |records| == n + 1
    ensures |DeliveredAt(records)| == |DeliveredAt(records[..n])|
              + (if records[n].reason != Some("ci-result-missing-or-invalid") then 1 else 0)
  {
    assert DeliveredAt(records) == DeliveredAt(records[..n])
      + (if records[n].reason != Some("ci-result-missing-or-invalid") then {n} else {});
  }

  lemma {:induction false} CountsLast(records: seq<Record>)
    requires records != []
    ensures var front, last := records[..|records| - 1], records[|records| - 1];
            && Count(records, Passed) == Count(front, Passed) + (if KindOf(last) == Passed then 1 else 0)
            && Count(records, Infrastructure)
                 == Count(front, Infrastructure) + (if KindOf(last) == Infrastructure then 1 else 0)
            && Count(records, Incompatible) + Count(records, Unexplained)
                 == Count(front, Incompatible) + Count(front, Unexplained)
                    + (if KindOf(last) == Passed || KindOf(last) == Infrastructure then 0 else 1)
            && Delivered(records)
                 == Delivered(front) + (if last.reason != Some("ci-result-missing-or-invalid") then 1 else 0)
  {
    hide KindOf;
  }

  lemma {:induction false} SummaryMeans(records: seq<Record>, s: Summary)
    ensures s == Recount(records) <==> SummaryFits(records, s)
  {
    CountsMean(records);
    hide Count, Delivered, PassedAt, BrokenAt, OtherAt, DeliveredAt;
  }

  // ----- The outcome

  ghost predicate AllPassed(records: seq<Record>) {
    forall k :: 0 <= k < |records| ==> records[k].outcome == "passed"
  }

  ghost predicate NoneBroken(records: seq<Record>) {
    forall k :: 0 <= k < |records| ==>
      records[k].outcome == "passed" || records[k].failureClass != Some("infrastructure-problem")
  }

  /** A pass: every record passed, both jobs succeeded and the set of artifacts is valid. A
      compatibility failure: the same, except that the job failed and some record did, none of
      them for the infrastructure. Everything else is an infrastructure failure. */
  ghost predicate OutcomeFits(records: seq<Record>, job: string, download: string, setValid: bool, outcome: string) {
    match outcome
    case "passed" => AllPassed(records) && job == "success" && download == "success" && setValid
    case "compatibility-failed" =>
      NoneBroken(records) && !AllPassed(records) && job == "failure" && download == "success" && setValid
    case "infrastructure-failed" =>
      && !(AllPassed(records) && job == "success" && download == "success" && setValid)
      && !(NoneBroken(records) && !AllPassed(records) && job == "failure" && download == "success" && setValid)
    case _ => false
  }

  lemma {:induction false} OutcomeMeans(records: seq<Record>, s: Summary, job: string, download: string,
                                        setValid: bool, outcome: string)
    requires SummaryFits(records, s)
    ensures OutcomeFits(records, job, download, setValid, outcome) <==> outcome == OutcomeOf(s, job, download, setValid)
  {
    CountsSay(records);
    hide PassedAt, BrokenAt, OtherAt, DeliveredAt, AllPassed, NoneBroken;
    assert "passed" != "compatibility-failed" && "success" != "failure";
  }

  lemma {:induction false} CountsSay(records: seq<Record>)
    ensures |PassedAt(records)| == |records| <==> AllPassed(records)
    ensures |BrokenAt(records)| == 0 <==> NoneBroken(records)
    ensures |OtherAt(records)| > 0 && NoneBroken(records) ==> !AllPassed(records)
    ensures !AllPassed(records) && NoneBroken(records) ==> |OtherAt(records)| > 0
    ensures AllPassed(records) ==> NoneBroken(records)
  {
    CountsMean(records);
    CountBounds(records, Passed);
    CountBounds(records, Infrastructure);
    forall k | 0 <= k < |records|
      ensures KindOf(records[k]) == Passed <==> records[k].outcome == "passed"
      ensures KindOf(records[k]) == Infrastructure <==>
                records[k].outcome != "passed" && records[k].failureClass == Some("infrastructure-problem")
    {
      KindMeans(records[k]);
    }
    hide KindOf, Count, Delivered, PassedAt, BrokenAt, DeliveredAt;
    assert OtherAt(records) == {} <==> |OtherAt(records)| == 0;
    if k :| 0 <= k < |records| && records[k].outcome != "passed" && NoneBroken(records) {
      assert k in OtherAt(records);
    }
    if k :| k in OtherAt(records) {
      assert records[k].outcome != "passed";
    }
  }

  // ----- The report

  predicate JobResult(text: string) {
    text == "success" || text == "failure" || text == "cancelled" || text == "skipped"
  }

  /** The release is the only entry of the inventory with its version. */
  ghost predicate Entry(inventory: seq<Release>, version: string, release: Release) {
    exists i :: OnlyAt(inventory, version, i) && inventory[i] == release
  }

  ghost predicate OnlyAt(inventory: seq<Release>, version: string, i: int) {
    && 0 <= i < |inventory| && inventory[i].version == version
    && forall j :: 0 <= j < |inventory| && inventory[j].version == version ==> j == i
  }

  /** `at` lists the positions of the entries with this version, and `found` those entries. */
  ghost predicate Located(at: seq<nat>, found: seq<Release>, inventory: seq<Release>, version: string) {
    && |at| == |found|
    && (forall j, k :: 0 <= j < k < |at| ==> at[j] < at[k])
    && (forall k :: 0 <= k < |at| ==>
          at[k] < |inventory| && found[k] == inventory[at[k]] && inventory[at[k]].version == version)
    && (forall i: nat :: i < |inventory| && inventory[i].version == version ==> i in at)
  }

  lemma {:induction false} MatchingAt(inventory: seq<Release>, version: string) returns (at: seq<nat>)
    ensures Located(at, Matching(inventory, version), inventory, version)
  {
    hide Located;
    at := [];
    if inventory == [] {
      LocatedNone(version);
    } else {
      var n: nat := |inventory| - 1;
      at := MatchingAt(inventory[..n], version);
      LocatedStep(at, Matching(inventory[..n], version), inventory, version, n);
      if inventory[n].version == version {
        at := at + [n];
      }
    }
  }

  lemma {:induction false} LocatedNone(version: string)
    ensures Located([], [], [], version)
  {
  }

  lemma {:induction false} LocatedStep(at: seq<nat>, found: seq<Release>, inventory: seq<Release>, version: string,
                                       n: nat)
    requires |inventory| == n + 1 && Located(at, found, inventory[..n], version)
    ensures if inventory[n].version == version
            then Located(at + [n], found + [inventory[n]], inventory, version)
            else Located(at, found + [], inventory, version)
  {
    var front := inventory[..n];
    assert forall i :: 0 <= i < n ==> front[i] == inventory[i];
    assert found + [] == found;
    if inventory[n].version == version {
      assert (at + [n])[|at|] == n;
      forall i | i in at ensures i in at + [n] {}
    }
  }

  lemma {:induction false} EntryIs(inventory: seq<Release>, version: string, release: Release)
    ensures Entry(inventory, version, release) <==> ReleaseFor(inventory, version) == Some(release)
  {
    var at := MatchingAt(inventory, version);
    hide Matching;
    if i :| OnlyAt(inventory, version, i) && inventory[i] == release {
      assert i in at;
      OneEntry(at, i);
    }
    if |at| == 1 {
      forall j | 0 <= j < |inventory| && inventory[j].version == version ensures j == at[0] {
        assert j in at;
      }
      assert OnlyAt(inventory, version, at[0]);
    }
  }

  /** The record fits the one inventory entry of the version. */
  ghost predicate Recorded(t: Tables, inventory: seq<Release>, version: string, record: Record) {
    exists release :: Entry(inventory, version, release) && RecordFits(t, release, record, true)
  }

  /** A report that holds together. */
  ghost predicate ReportFits(t: Tables, inventory: seq<Release>, report: Report) {
    && Picks(report.profile, Texts(inventory), report.expected)
    && JobResult(report.job) && JobResult(report.download)
    && AllRecorded(t, inventory, report.expected, report.records)
    && SummaryFits(report.records, report.summary)
    && OutcomeFits(report.records, report.job, report.download, report.artifactSetValid, report.outcome)
  }

  lemma {:induction false} RecordedIs(t: Tables, inventory: seq<Release>, version: string, record: Record)
    ensures Recorded(t, inventory, version, record) <==>
              var release := ReleaseFor(inventory, version);
              release.Some? && RecordOk(t, release.value, record, true)
  {
    hide Entry, RecordFits, RecordOk, ReleaseFor;
    if release :| Entry(inventory, version, release) && RecordFits(t, release, record, true) {
      EntryIs(inventory, version, release);
      RecordFitsIs(t, release, record, true);
    }
    if ReleaseFor(inventory, version).Some? {
      EntryIs(inventory, version, ReleaseFor(inventory, version).value);
      RecordFitsIs(t, ReleaseFor(inventory, version).value, record, true);
    }
  }

  ghost predicate AllRecorded(t: Tables, inventory: seq<Release>, expected: seq<string>, records: seq<Record>) {
    && |records| == |expected|
    && forall k :: 0 <= k < |records| ==> Recorded(t, inventory, expected[k], records[k])
  }

  lemma {:induction false} AllRecordedIs(t: Tables, inventory: seq<Release>, expected: seq<string>,
                                         records: seq<Record>)
    ensures AllRecorded(t, inventory, expected, records) <==> RecordsOk(t, inventory, expected, records)
  {
    forall k | 0 <= k < |records| && |records| == |expected|
      ensures Recorded(t, inventory, expected[k], records[k]) <==>
                var release := ReleaseFor(inventory, expected[k]);
                release.Some? && RecordOk(t, release.value, records[k], true)
    {
      RecordedIs(t, inventory, expected[k], records[k]);
    }
    hide Recorded, RecordOk, ReleaseFor;
  }

  /** The validator accepts exactly the reports that hold together. */
  lemma {:induction false} ReportMeans(t: Tables, inventory: seq<Release>, report: Report)
    ensures ReportOk(t, inventory, report) <==> ReportFits(t, inventory, report)
  {
    PicksIs(report.profile, Texts(inventory), report.expected);
    SummaryMeans(report.records, report.summary);
    AllRecordedIs(t, inventory, report.expected, report.records);
    hide Picks, Profile, AllRecorded, RecordsOk, SummaryFits, Recount, OutcomeFits, OutcomeOf, Texts;
    if SummaryFits(report.records, report.summary) {
      OutcomeMeans(report.records, report.summary, report.job, report.download, report.artifactSetValid,
                   report.outcome);
    }
  }

  /** `validate_aggregate_report` */
  method AcceptReport(t: Tables, inventory: seq<Release>, report: Report) returns (ok: bool)
    ensures ok <==> ReportFits(t, inventory, report)
  {
    ok := ValidateAggregateReport(t, inventory, report);
    ReportMeans(t, inventory, report);
  }

  // ----- The aggregate

  /** The artifact of a release holds a record that fits it. */
  ghost predicate Received(t: Tables, artifacts: Artifacts, release: Release, record: Record) {
    && artifacts.Some? && ("openbao-core-" + release.version) in artifacts.value
    && artifacts.value["openbao-core-" + release.version] == Some(record)
    && RecordFits(t, release, record, false)
  }

  /** What stands in for a missing record. */
  ghost predicate MadeUp(release: Release, record: Record) {
    record == Record(release.version, release.digest, None, "unverified", "failed", 0, [],
                     Some("infrastructure-problem"), Some("ci-result-missing-or-invalid"))
  }

  lemma {:induction false} ReceivedIs(t: Tables, artifacts: Artifacts, release: Release, record: Record)
    ensures Received(t, artifacts, release, record) <==> Verdict(t, artifacts, release) == Some(record)
  {
    RecordFitsIs(t, release, record, false);
    hide RecordFits, RecordOk;
  }

  /** The received record, or the one made up in its place. */
  ghost predicate Stood(t: Tables, artifacts: Artifacts, release: Release, record: Record) {
    if exists other :: Received(t, artifacts, release, other) then Received(t, artifacts, release, record)
    else MadeUp(release, record)
  }

  lemma {:induction false} StoodIs(t: Tables, artifacts: Artifacts, release: Release)
    ensures Stood(t, artifacts, release, RecordFor(t, artifacts, release))
  {
    forall other ensures Received(t, artifacts, release, other) <==> Verdict(t, artifacts, release) == Some(other) {
      ReceivedIs(t, artifacts, release, other);
    }
    hide Received, Verdict;
  }

  /** Exactly one directory for each expected version. */
  ghost predicate ExactlyThese(artifacts: Artifacts, expected: seq<string>) {
    && artifacts.Some?
    && (forall k :: 0 <= k < |expected| ==> ("openbao-core-" + expected[k]) in artifacts.value)
    && forall d :: d in artifacts.value ==> exists k :: 0 <= k < |expected| && d == "openbao-core-" + expected[k]
  }

  lemma {:induction false} ExactIs(artifacts: Artifacts, expected: seq<string>)
    ensures ExactSet(artifacts, expected) <==> ExactlyThese(artifacts, expected)
  {
    forall k | 0 <= k < |expected| ensures expected[k] in expected {}
  }

  /** A passing record, or one whose class both sides count alike and whose reason is not the
      one for missing results. */
  predicate Clear(record: Record) {
    && record.reason != Some("ci-result-missing-or-invalid")
    && (|| record.outcome == "passed" || record.failureClass == Some("infrastructure-problem")
        || record.failureClass == Some("crate-defect") || record.failureClass == Some("expected-server-difference")
        || record.failureClass == Some("security-policy-block"))
  }

  lemma {:induction false} ClearIs(record: Record)
    ensures Clear(record) <==> Explained(record)
  {
    KindMeans(record);
    hide KindOf;
  }

  /** Every expected version has one entry, and what was received for it is clear. */
  ghost predicate AllSound(t: Tables, artifacts: Artifacts, inventory: seq<Release>, expected: seq<string>) {
    forall k :: 0 <= k < |expected| ==> SoundAt(t, artifacts, inventory, expected[k])
  }

  ghost predicate SoundAt(t: Tables, artifacts: Artifacts, inventory: seq<Release>, version: string) {
    exists release :: Entry(inventory, version, release)
                      && forall record :: Received(t, artifacts, release, record) ==> Clear(record)
  }

  lemma {:induction false} SoundAtIs(t: Tables, artifacts: Artifacts, inventory: seq<Release>, version: string)
    ensures SoundAt(t, artifacts, inventory, version) <==>
              && ReleaseFor(inventory, version).Some?
              && var verdict := Verdict(t, artifacts, ReleaseAt(inventory, version));
                 verdict.Some? ==> Explained(verdict.value)
  {
    var found := ReleaseFor(inventory, version);
    forall release ensures Entry(inventory, version, release) <==> found == Some(release) {
      EntryIs(inventory, version, release);
    }
    if found.Some? {
      forall record
        ensures Received(t, artifacts, found.value, record) <==> Verdict(t, artifacts, found.value) == Some(record)
        ensures Clear(record) <==> Explained(record)
      {
        ReceivedIs(t, artifacts, found.value, record);
        ClearIs(record);
      }
    }
    hide Entry, ReleaseFor, Received, Verdict, Clear, Explained;
  }

  lemma {:induction false} VerdictsAt(t: Tables, artifacts: Artifacts, inventory: seq<Release>, expected: seq<string>)
    ensures var verdicts := Verdicts(t, artifacts, inventory, expected);
            && |verdicts| == |expected|
            && forall k :: 0 <= k < |expected| ==>
                 verdicts[k] == Verdict(t, artifacts, ReleaseAt(inventory, expected[k]))
    ensures var records := RecordsFor(t, artifacts, inventory, expected);
            && |records| == |expected|
            && forall k :: 0 <= k < |expected| ==>
                 records[k] == RecordFor(t, artifacts, ReleaseAt(inventory, expected[k]))
  {
    hide Verdict, RecordFor, ReleaseAt;
  }

  lemma {:induction false} AllSoundIs(t: Tables, artifacts: Artifacts, inventory: seq<Release>, expected: seq<string>)
    ensures AllSound(t, artifacts, inventory, expected) <==>
              AllReleases(inventory, expected) && Reliable(Verdicts(t, artifacts, inventory, expected))
  {
    forall k | 0 <= k < |expected|
      ensures SoundAt(t, artifacts, inventory, expected[k]) <==>
                && ReleaseFor(inventory, expected[k]).Some?
                && var verdict := Verdict(t, artifacts, ReleaseAt(inventory, expected[k]));
                   verdict.Some? ==> Explained(verdict.value)
    {
      SoundAtIs(t, artifacts, inventory, expected[k]);
    }
    VerdictsAt(t, artifacts, inventory, expected);
    hide Verdicts, SoundAt, ReleaseFor, Verdict, Explained, ReleaseAt;
  }

  /** The artifact for the version holds a record that fits its entry. */
  ghost predicate Arrived(t: Tables, artifacts: Artifacts, inventory: seq<Release>, version: string) {
    exists release, record :: Entry(inventory, version, release) && Received(t, artifacts, release, record)
  }

  ghost predicate StoodFor(t: Tables, artifacts: Artifacts, inventory: seq<Release>, version: string, record: Record) {
    exists release :: Entry(inventory, version, release) && Stood(t, artifacts, release, record)
  }

  lemma {:induction false} EachIs(t: Tables, artifacts: Artifacts, inventory: seq<Release>, version: string)
    requires ReleaseFor(inventory, version).Some?
    ensures var release := ReleaseAt(inventory, version);
            && (Arrived(t, artifacts, inventory, version) <==> Verdict(t, artifacts, release).Some?)
            && StoodFor(t, artifacts, inventory, version, RecordFor(t, artifacts, release))
  {
    var release := ReleaseAt(inventory, version);
    forall other ensures Entry(inventory, version, other) <==> other == release {
      EntryIs(inventory, version, other);
    }
    forall record
      ensures Received(t, artifacts, release, record) <==> Verdict(t, artifacts, release) == Some(record)
    {
      ReceivedIs(t, artifacts, release, record);
    }
    StoodIs(t, artifacts, release);
    hide Entry, ReleaseFor, Received, Verdict, Stood, RecordFor;
  }

  lemma {:induction false} AllAre(t: Tables, artifacts: Artifacts, inventory: seq<Release>, expected: seq<string>)
    requires AllReleases(inventory, expected)
    ensures ExactlyThese(artifacts, expected) <==> ExactSet(artifacts, expected)
    ensures AllReceived(Verdicts(t, artifacts, inventory, expected)) <==>
              forall k :: 0 <= k < |expected| ==> Arrived(t, artifacts, inventory, expected[k])
    ensures var records := RecordsFor(t, artifacts, inventory, expected);
            && |records| == |expected|
            && forall k :: 0 <= k < |expected| ==> StoodFor(t, artifacts, inventory, expected[k], records[k])
  {
    ExactIs(artifacts, expected);
    forall k | 0 <= k < |expected|
      ensures var release := ReleaseAt(inventory, expected[k]);
              && (Arrived(t, artifacts, inventory, expected[k]) <==> Verdict(t, artifacts, release).Some?)
              && StoodFor(t, artifacts, inventory, expected[k], RecordFor(t, artifacts, release))
    {
      EachIs(t, artifacts, inventory, expected[k]);
    }
    VerdictsAt(t, artifacts, inventory, expected);
    hide Verdicts, RecordsFor, ExactSet, ExactlyThese, Arrived, StoodFor, Verdict, RecordFor, ReleaseAt, ReleaseFor;
  }

  /** `aggregate`: a report exactly for known job results, a profile that selects releases, one
      entry for each of them and clear results. The report holds together, has the received
      record of each release or the one made up for it, and its outcome gives the exit code. */
  method AggregateRun(t: Tables, profile: string, job: string, download: string, artifacts: Artifacts,
                      inventory: seq<Release>)
    returns (r: Option<Result>)
    ensures r.Some? <==>
              && JobResult(job) && JobResult(download)
              && exists expected ::
                   Picks(profile, Texts(inventory), expected) && AllSound(t, artifacts, inventory, expected)
    ensures r.Some? ==>
      var report := r.value.report;
      && report.profile == profile && report.job == job && report.download == download
      && ReportFits(t, inventory, report)
      && (report.artifactSetValid <==>
            && ExactlyThese(artifacts, report.expected)
            && forall k :: 0 <= k < |report.expected| ==> Arrived(t, artifacts, inventory, report.expected[k]))
      && forall k :: 0 <= k < |report.expected| ==>
           StoodFor(t, artifacts, inventory, report.expected[k], report.records[k])
    ensures r.Some? ==>
      || (r.value.code == 0 && r.value.report.outcome == "passed")
      || (r.value.code == 10 && r.value.report.outcome == "compatibility-failed")
      || (r.value.code == 20 && r.value.report.outcome == "infrastructure-failed")
  {
    hide Picks, AllSound, Profile, AllReleases, Reliable, Verdicts, RecordsFor, CodeOk, ExactSet, ExactlyThese,
         ReportOk, AllReceived, Arrived, StoodFor, Texts;
    r := Aggregate(t, profile, job, download, artifacts, inventory);
    forall expected ensures Picks(profile, Texts(inventory), expected)
                        <==> Profile(profile, Texts(inventory)) == Some(expected) {
      PicksIs(profile, Texts(inventory), expected);
    }
    var expected := Profile(profile, Texts(inventory));
    if expected.Some? {
      AllSoundIs(t, artifacts, inventory, expected.value);
    }
    if r.Some? {
      ReportMeans(t, inventory, r.value.report);
      ReportExpected(t, inventory, r.value.report);
      AllAre(t, artifacts, inventory, expected.value);
    }
  }

  lemma {:induction false} ReportExpected(t: Tables, inventory: seq<Release>, report: Report)
    requires ReportOk(t, inventory, report)
    ensures Profile(report.profile, Texts(inventory)) == Some(report.expected)
    ensures report.outcome == "passed" || report.outcome == "compatibility-failed"
            || report.outcome == "infrastructure-failed"
  {
  }
}
