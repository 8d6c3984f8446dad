/** Result records, the aggregate report with its exit code, and its separate validator
    (scripts/openbao_ci_matrix.py, validate_result_record, aggregate and
    validate_aggregate_report). */
module CiAggregate {
  import opened Text
  import opened Versions
  import CiMatrix

  const JOB_RESULTS := {"success", "failure", "cancelled", "skipped"}
  const COMPATIBILITY := {"crate-defect", "expected-server-difference", "security-policy-block"}
  const INFRASTRUCTURE := "infrastructure-problem"
  const CI_REASON := "ci-result-missing-or-invalid"
  const FULL_FLOW := {"2.6.0", "2.6.1", "2.6.2", "2.6.3"}
  const BASE_FLOWS := 8

  /** One flow of the core test, and the result record of one release. */
  datatype Flow = Flow(id: string, status: string, reason: Option<string>, classification: Option<string>)

  datatype Record = Record(
    version: string, digest: string, reported: Option<string>, compatibility: string, outcome: string,
    testCount: int, flows: seq<Flow>, failureClass: Option<string>, reason: Option<string>)

  datatype Release = Release(version: string, digest: string)

  /** The shared tables: the flow names in order, and the class of every failure reason. */
  datatype Tables = Tables(flows: seq<string>, reasons: map<string, string>)

  // ----- One record

  predicate FlowOk(flow: Flow) {
    if flow.status == "passed" then flow.reason.None? && flow.classification.None?
    else
      && flow.status == "skipped"
      && flow.reason == Some("server-operation-unavailable")
      && flow.classification == Some("expected-server-difference")
  }

  predicate ShouldSkip(t: Tables, version: string, id: string) {
    version !in FULL_FLOW && BASE_FLOWS <= |t.flows| && id in t.flows[BASE_FLOWS..]
  }

  function FlowIds(flows: seq<Flow>): seq<string> {
    seq(|flows|, k requires 0 <= k < |flows| => flows[k].id)
  }

  ghost predicate FlowsOk(t: Tables, version: string, flows: seq<Flow>) {
    forall k :: 0 <= k < |flows| ==>
      FlowOk(flows[k]) && ((flows[k].status == "skipped") == ShouldSkip(t, version, flows[k].id))
  }

  ghost predicate PassingOk(t: Tables, release: Release, record: Record) {
    && record.reported == Some(release.version) && record.compatibility == "tested-subset" && record.testCount >= 1
    && record.failureClass.None? && record.reason.None? && FlowIds(record.flows) == t.flows
    && FlowsOk(t, release.version, record.flows)
  }

  function Allowed(t: Tables, allowCi: bool): map<string, string> {
    if allowCi then t.reasons[CI_REASON := INFRASTRUCTURE] else t.reasons
  }

  predicate FailingOk(t: Tables, record: Record, allowCi: bool) {
    && record.reported.None? && record.compatibility == "unverified" && record.testCount == 0 && record.flows == []
    && record.reason.Some? && record.reason.value in Allowed(t, allowCi)
    && record.failureClass == Some(Allowed(t, allowCi)[record.reason.value])
  }

  /** What `validate_result_record` accepts. */
  ghost predicate RecordOk(t: Tables, release: Release, record: Record, allowCi: bool) {
    && record.version == release.version && record.digest == release.digest
    && (record.outcome == "passed" || record.outcome == "failed")
    && if record.outcome == "passed" then PassingOk(t, release, record) else FailingOk(t, record, allowCi)
  }

  method ValidateResultRecord(t: Tables, release: Release, record: Record, allowCi: bool) returns (ok: bool)
    ensures ok <==> RecordOk(t, release, record, allowCi)
  {
    if record.version != release.version || record.digest != release.digest || record.outcome !in {"passed", "failed"} {
      return false;
    }
    if record.outcome == "passed" {
      if record.reported != Some(release.version) || record.compatibility != "tested-subset" || record.testCount < 1
         || record.failureClass.Some? || record.reason.Some? || FlowIds(record.flows) != t.flows {
        return false;
      }
      ok := ValidateFlows(t, release.version, record.flows);
    } else {
      ok := FailingOk(t, record, allowCi);
    }
  }

  method ValidateFlows(t: Tables, version: string, flows: seq<Flow>) returns (ok: bool)
    ensures ok <==> FlowsOk(t, version, flows)
  {
    hide FlowOk, ShouldSkip;
    var k := 0;
    while k < |flows|
      invariant 0 <= k <= |flows| && FlowsOk(t, version, flows[..k])
    {
      if !FlowOk(flows[k]) || (flows[k].status == "skipped") != ShouldSkip(t, version, flows[k].id) {
        return false;
      }
      k := k + 1;
    }
    assert flows[..k] == flows;
    ok := true;
  }

  /** The flow names of openbao_test_harness.py, lines 42 to 57. */
  const CORE_FLOWS := [
    "health", "mount-management", "kv1", "kv2", "policy", "token", "capabilities", "response-wrapping",
    "root-generation-routing", "sealable-namespace", "workflow", "jwt-cel", "userpass-password-hash",
    "changed-response-fields"]

  lemma {:induction false} CoreFlowsDistinct()
    ensures |CORE_FLOWS| == 14 && Distinct(CORE_FLOWS)
  {
  }

  /** A valid passing record ran every flow, or exactly the base flows on the releases
      without the others. */
  lemma {:induction false} PassingRan(t: Tables, release: Release, record: Record, k: nat)
    requires Distinct(t.flows) && |t.flows| >= BASE_FLOWS
    requires RecordOk(t, release, record, false) && record.outcome == "passed" && k < |record.flows|
    ensures |record.flows| == |t.flows| && record.flows[k].id == t.flows[k]
    ensures record.flows[k].status
         == if release.version in FULL_FLOW || k < BASE_FLOWS then "passed" else "skipped"
  {
    assert FlowIds(record.flows)[k] == t.flows[k];
    if k >= BASE_FLOWS {
      assert t.flows[BASE_FLOWS..][k - BASE_FLOWS] == t.flows[k];
    }
    assert "passed" != "skipped";
  }

  /** Every text of a record. */
  function RecordTexts(record: Record): set<string> {
    {record.version, record.digest, record.compatibility, record.outcome}
    + Opt(record.reported) + Opt(record.failureClass) + Opt(record.reason)
    + (set flow, x | flow in record.flows
                     && x in {flow.id, flow.status} + Opt(flow.reason) + Opt(flow.classification) :: x)
  }

  function Opt(s: Option<string>): set<string> {
    if s.Some? then {s.value} else {}
  }

  /** The texts that come from the sources and tables rather than from the record. */
  function Vocabulary(t: Tables, release: Release): set<string> {
    {"passed", "failed", "skipped", "tested-subset", "unverified", "server-operation-unavailable",
     "expected-server-difference", INFRASTRUCTURE, CI_REASON, release.version, release.digest}
    + (set x | x in t.flows) + t.reasons.Keys + t.reasons.Values
  }

  /** A record that passes the other checks holds only known texts: the last check, on unsafe
      characters, can refuse it only for a text of the inventory or of a table. */
  lemma {:induction false} RecordTextsKnown(t: Tables, release: Release, record: Record, allowCi: bool)
    requires RecordOk(t, release, record, allowCi)
    ensures RecordTexts(record) <= Vocabulary(t, release)
  {
    forall flow | flow in record.flows
      ensures {flow.id, flow.status} + Opt(flow.reason) + Opt(flow.classification) <= Vocabulary(t, release)
    {
      var k :| 0 <= k < |record.flows| && record.flows[k] == flow;
      assert FlowIds(record.flows)[k] == flow.id;
      FlowTexts(flow);
    }
  }

  lemma {:induction false} FlowTexts(flow: Flow)
    requires FlowOk(flow)
    ensures {flow.status} + Opt(flow.reason) + Opt(flow.classification)
         <= {"passed", "skipped", "server-operation-unavailable", "expected-server-difference"}
  {
  }

  // ----- The expected releases

  function Texts(inventory: seq<Release>): seq<string> {
    seq(|inventory|, k requires 0 <= k < |inventory| => inventory[k].version)
  }

  function Matching(inventory: seq<Release>, version: string): seq<Release> {
    if inventory == [] then []
    else
      var last := inventory[|inventory| - 1];
      Matching(inventory[..|inventory| - 1], version) + (if last.version == version then [last] else [])
  }

  /** `release_for_version`: the one entry with this version, or a refusal. */
  function ReleaseFor(inventory: seq<Release>, version: string): Option<Release> {
    var found := Matching(inventory, version);
    if |found| == 1 then Some(found[0]) else None
  }

  lemma {:induction false} MatchingOne(inventory: seq<Release>, version: string)
    requires Distinct(Texts(inventory))
    ensures var found := Matching(inventory, version);
            if version in Texts(inventory) then |found| == 1 && found[0].version == version else found == []
  {
    if inventory != [] {
      var front := inventory[..|inventory| - 1];
      var last := inventory[|inventory| - 1].version;
      assert Texts(inventory) == Texts(front) + [last];
      forall i | 0 <= i < |front| ensures Texts(front)[i] == Texts(inventory)[i] && Texts(inventory)[i] != last {
        assert Texts(inventory)[i] != Texts(inventory)[|inventory| - 1];
      }
      MatchingOne(front, version);
    }
  }

  lemma {:induction false} ChosenKnown(texts: seq<string>, versions: seq<Version>, n: nat)
    requires |texts| == |versions| && n <= |versions|
    ensures forall x :: x in CiMatrix.Chosen(texts, versions, n) ==> x in texts
  {
    hide CiMatrix.EndsLine;
    if n > 0 {
      ChosenKnown(texts, versions, n - 1);
    }
  }

  /** Every expected version is an exact inventory entry. */
  predicate AllReleases(inventory: seq<Release>, expected: seq<string>) {
    forall k :: 0 <= k < |expected| ==> ReleaseFor(inventory, expected[k]).Some?
  }

  /** In a validated inventory every expected version is. */
  lemma {:induction false} ExpectedKnown(profile: string, inventory: seq<Release>, versions: seq<Version>,
                                         expected: seq<string>)
    requires CiMatrix.Inventory(Texts(inventory), versions)
    requires CiMatrix.Profile(profile, Texts(inventory)) == Some(expected)
    ensures AllReleases(inventory, expected)
  {
    CiMatrix.InventoryDistinct(Texts(inventory), versions);
    CiMatrix.RepresentativeIsChosen(Texts(inventory), versions);
    ChosenKnown(Texts(inventory), versions, |versions|);
    hide CiMatrix.Inventory, Matching, Texts, CiMatrix.Chosen, CiMatrix.Representative, CiMatrix.Canonical;
    forall k | 0 <= k < |expected| ensures ReleaseFor(inventory, expected[k]).Some? {
      MatchingOne(inventory, expected[k]);
    }
  }

  lemma {:induction false} ExpectedSome(profile: string, texts: seq<string>)
    ensures CiMatrix.Profile(profile, texts) != Some([])
  {
  }

  // ----- Downloaded artifacts

  /** What was downloaded: None when the directory cannot be inspected; otherwise each
      artifact directory with the record of its one readable report, if there is one. */
  type Artifacts = Option<map<string, Option<Record>>>

  function Directory(version: string): string {
    "openbao-core-" + version
  }

  /** The valid record received for a release. */
  ghost function Verdict(t: Tables, artifacts: Artifacts, release: Release): Option<Record> {
    var directory := Directory(release.version);
    if artifacts.Some? && directory in artifacts.value && artifacts.value[directory].Some?
       && RecordOk(t, release, artifacts.value[directory].value, false)
    then artifacts.value[directory] else None
  }

  function Synthetic(release: Release): Record {
    Record(release.version, release.digest, None, "unverified", "failed", 0, [], Some(INFRASTRUCTURE), Some(CI_REASON))
  }

  ghost function RecordFor(t: Tables, artifacts: Artifacts, release: Release): Record {
    var verdict := Verdict(t, artifacts, release);
    if verdict.Some? then verdict.value else Synthetic(release)
  }

  method ReadRun(t: Tables, artifacts: Artifacts, release: Release) returns (r: Option<Record>)
    ensures r == Verdict(t, artifacts, release)
  {
    hide RecordOk, Directory;
    var directory := Directory(release.version);
    if artifacts.None? || directory !in artifacts.value || artifacts.value[directory].None? {
      return None;
    }
    var ok := ValidateResultRecord(t, release, artifacts.value[directory].value, false);
    r := if ok then artifacts.value[directory] else None;
  }

  // ----- Counting

  datatype Kind = Passed | Incompatible | Infrastructure | Unexplained

  function KindOf(record: Record): Kind {
    if record.outcome == "passed" then Passed
    else if record.failureClass.Some? && record.failureClass.value in COMPATIBILITY then Incompatible
    else if record.failureClass == Some(INFRASTRUCTURE) then Infrastructure
    else Unexplained
  }

  function Count(records: seq<Record>, kind: Kind): nat {
    if records == [] then 0
    else Count(records[..|records| - 1], kind) + (if KindOf(records[|records| - 1]) == kind then 1 else 0)
  }

  /** The records whose reason is not the one reserved for missing results. */
  function Delivered(records: seq<Record>): nat {
    if records == [] then 0
    else Delivered(records[..|records| - 1]) + (if records[|records| - 1].reason != Some(CI_REASON) then 1 else 0)
  }

  lemma {:induction false} CountSnoc(records: seq<Record>, record: Record, kind: Kind)
    ensures Count(records + [record], kind) == Count(records, kind) + (if KindOf(record) == kind then 1 else 0)
    ensures Delivered(records + [record]) == Delivered(records) + (if record.reason != Some(CI_REASON) then 1 else 0)
  {
    assert (records + [record])[..|records|] == records;
    hide KindOf;
  }

  lemma {:induction false} CountBounds(records: seq<Record>, kind: Kind)
    ensures Count(records, kind) <= |records|
    ensures Count(records, kind) == 0 <==> forall k :: 0 <= k < |records| ==> KindOf(records[k]) != kind
    ensures Count(records, kind) == |records| <==> forall k :: 0 <= k < |records| ==> KindOf(records[k]) == kind
  {
    hide KindOf;
    if records != [] {
      var front := records[..|records| - 1];
      CountBounds(front, kind);
      assert forall k :: 0 <= k < |front| ==> front[k] == records[k];
    }
  }

  // ----- The report

  datatype Summary =
    Summary(expected: nat, received: nat, passed: nat, compatibilityFailed: nat, infrastructureFailed: nat)

  datatype Report = Report(
    profile: string, expected: seq<string>, job: string, download: string, artifactSetValid: bool,
    outcome: string, summary: Summary, records: seq<Record>)

  /** Not a statement about the crate: a missing result, a broken download, or a job result
      that contradicts the records. */
  predicate Broken(summary: Summary, job: string, download: string, setValid: bool) {
    || summary.infrastructureFailed > 0 || !setValid || download != "success"
    || job != (if summary.passed == summary.expected then "success" else "failure")
  }

  /** The outcome both sides compute: from the summary and the three external results. */
  function OutcomeOf(summary: Summary, job: string, download: string, setValid: bool): string {
    if Broken(summary, job, download, setValid) then "infrastructure-failed"
    else if summary.compatibilityFailed > 0 then "compatibility-failed"
    else "passed"
  }

  ghost predicate RecordsOk(t: Tables, inventory: seq<Release>, expected: seq<string>, records: seq<Record>) {
    && |records| == |expected|
    && forall k :: 0 <= k < |records| ==>
         var release := ReleaseFor(inventory, expected[k]);
         release.Some? && RecordOk(t, release.value, records[k], true)
  }

  /** The validator counts every failure that is not an infrastructure one as incompatible. */
  function Recount(records: seq<Record>): Summary {
    Summary(|records|, Delivered(records), Count(records, Passed),
            Count(records, Incompatible) + Count(records, Unexplained), Count(records, Infrastructure))
  }

  /** What `validate_aggregate_report` accepts. */
  ghost predicate ReportOk(t: Tables, inventory: seq<Release>, report: Report) {
    && CiMatrix.Profile(report.profile, Texts(inventory)) == Some(report.expected)
    && report.job in JOB_RESULTS && report.download in JOB_RESULTS
    && RecordsOk(t, inventory, report.expected, report.records)
    && report.summary == Recount(report.records)
    && report.outcome == OutcomeOf(report.summary, report.job, report.download, report.artifactSetValid)
  }

  /** The validator's loop over the records. */
  method Recounted(t: Tables, inventory: seq<Release>, expected: seq<string>, records: seq<Record>)
    returns (ok: bool, summary: Summary)
    ensures ok <==> RecordsOk(t, inventory, expected, records)
    ensures ok ==> summary == Recount(records)
  {
    hide RecordOk, ReleaseFor, KindOf, Count, Delivered;
    NoneCounted();
    summary := Summary(0, 0, 0, 0, 0);
    if |records| != |expected| {
      return false, summary;
    }
    var received, passed, incompatible, infrastructure, k := 0, 0, 0, 0, 0;
    assert records[..0] == [];
    while k < |records|
      invariant 0 <= k <= |records| && RecordsOk(t, inventory, expected[..k], records[..k])
      invariant received == Delivered(records[..k]) && passed == Count(records[..k], Passed)
      invariant incompatible == Count(records[..k], Incompatible) + Count(records[..k], Unexplained)
      invariant infrastructure == Count(records[..k], Infrastructure)
    {
      var release := ReleaseFor(inventory, expected[k]);
      if release.None? {
        return false, summary;
      }
      var fine := ValidateResultRecord(t, release.value, records[k], true);
      if !fine {
        return false, summary;
      }
      CountAll(records, k);
      if records[k].reason != Some(CI_REASON) {
        received := received + 1;
      }
      match KindOf(records[k]) {
        case Passed => passed := passed + 1;
        case Infrastructure => infrastructure := infrastructure + 1;
        case _ => incompatible := incompatible + 1;
      }
      k := k + 1;
    }
    assert records[..k] == records && expected[..k] == expected;
    ok, summary := true, Summary(|records|, received, passed, incompatible, infrastructure);
  }

  lemma {:induction false} NoneCounted()
    ensures Delivered([]) == Count([], Passed) == Count([], Incompatible) == Count([], Infrastructure)
            == Count([], Unexplained) == 0
  {
  }

  lemma {:induction false} CountAll(records: seq<Record>, k: nat)
    requires k < |records|
    ensures Count(records[..k + 1], Passed)
         == Count(records[..k], Passed) + (if KindOf(records[k]) == Passed then 1 else 0)
    ensures Count(records[..k + 1], Incompatible)
         == Count(records[..k], Incompatible) + (if KindOf(records[k]) == Incompatible then 1 else 0)
    ensures Count(records[..k + 1], Infrastructure)
         == Count(records[..k], Infrastructure) + (if KindOf(records[k]) == Infrastructure then 1 else 0)
    ensures Count(records[..k + 1], Unexplained)
         == Count(records[..k], Unexplained) + (if KindOf(records[k]) == Unexplained then 1 else 0)
    ensures Delivered(records[..k + 1])
         == Delivered(records[..k]) + (if records[k].reason != Some(CI_REASON) then 1 else 0)
  {
    assert records[..k + 1] == records[..k] + [records[k]];
    hide Count, Delivered;
    CountSnoc(records[..k], records[k], Passed);
    CountSnoc(records[..k], records[k], Incompatible);
    CountSnoc(records[..k], records[k], Infrastructure);
    CountSnoc(records[..k], records[k], Unexplained);
  }

  /** `validate_aggregate_report` */
  method ValidateAggregateReport(t: Tables, inventory: seq<Release>, report: Report) returns (ok: bool)
    ensures ok <==> ReportOk(t, inventory, report)
  {
    hide CiMatrix.Profile, RecordsOk, Recount;
    var expected := CiMatrix.ProfileVersions(report.profile, Texts(inventory));
    if expected.None? || report.expected != expected.value
       || report.job !in JOB_RESULTS || report.download !in JOB_RESULTS
       || report.outcome !in {"passed", "compatibility-failed", "infrastructure-failed"} {
      return false;
    }
    var fine, summary := Recounted(t, inventory, expected.value, report.records);
    if !fine || report.summary != summary {
      return false;
    }
    var infrastructure := summary.infrastructureFailed > 0 || !report.artifactSetValid || report.download != "success";
    SummaryExpected(report.records, summary);
    RecordsLength(t, inventory, expected.value, report.records);
    var job := if summary.passed == |expected.value| then "success" else "failure";
    if report.job != job {
      infrastructure := true;
    }
    var outcome :=
      if infrastructure then "infrastructure-failed"
      else if summary.compatibilityFailed > 0 then "compatibility-failed"
      else "passed";
    ok := report.outcome == outcome;
  }

  lemma {:induction false} SummaryExpected(records: seq<Record>, summary: Summary)
    requires summary == Recount(records)
    ensures summary.expected == |records|
  {
  }

  lemma {:induction false} RecordsLength(t: Tables, inventory: seq<Release>, expected: seq<string>,
                                         records: seq<Record>)
    requires RecordsOk(t, inventory, expected, records)
    ensures |records| == |expected|
  {
  }

  // ----- When the two sides agree

  /** A failure both sides classify alike. */
  predicate Explained(record: Record) {
    KindOf(record) != Unexplained && record.reason != Some(CI_REASON)
  }

  /** The shared table maps reasons to the four known classes and leaves the CI reason alone. */
  ghost predicate GoodReasons(t: Tables) {
    && CI_REASON !in t.reasons
    && forall reason :: reason in t.reasons ==>
         t.reasons[reason] in COMPATIBILITY || t.reasons[reason] == INFRASTRUCTURE
  }

  /** The condition on the table is exactly what makes every valid record explained. */
  lemma {:induction false} GoodReasonsIff(t: Tables, release: Release)
    ensures GoodReasons(t) <==> forall record :: RecordOk(t, release, record, false) ==> Explained(record)
  {
    hide FlowsOk, FlowIds;
    assert "failed" != "passed";
    forall reason | reason in t.reasons && (forall record :: RecordOk(t, release, record, false) ==> Explained(record))
      ensures reason != CI_REASON && (t.reasons[reason] in COMPATIBILITY || t.reasons[reason] == INFRASTRUCTURE)
    {
      var record := Record(release.version, release.digest, None, "unverified", "failed", 0, [],
                           Some(t.reasons[reason]), Some(reason));
      assert RecordOk(t, release, record, false);
    }
  }

  /** The table of openbao_core_matrix.py, lines 52 to 56. */
  const SHARED_REASONS := map[
    "core-flow-test-failed" := "crate-defect",
    "server-version-mismatch" := INFRASTRUCTURE,
    "harness-infrastructure-failed" := INFRASTRUCTURE]

  lemma {:induction false} SharedReasonsGood(t: Tables)
    requires t.reasons == SHARED_REASONS
    ensures GoodReasons(t)
  {
    assert CI_REASON[0] == 'c' && CI_REASON[1] == 'i';
  }

  // ----- Aggregation

  ghost function ReleaseAt(inventory: seq<Release>, version: string): Release {
    var release := ReleaseFor(inventory, version);
    if release.Some? then release.value else Release(version, "")
  }

  /** The valid record received for each expected version. */
  ghost function Verdicts(t: Tables, artifacts: Artifacts, inventory: seq<Release>,
                          expected: seq<string>): seq<Option<Record>> {
    seq(|expected|, k requires 0 <= k < |expected| => Verdict(t, artifacts, ReleaseAt(inventory, expected[k])))
  }

  ghost function RecordsFor(t: Tables, artifacts: Artifacts, inventory: seq<Release>,
                            expected: seq<string>): seq<Record> {
    seq(|expected|, k requires 0 <= k < |expected| => RecordFor(t, artifacts, ReleaseAt(inventory, expected[k])))
  }

  ghost function Got(verdicts: seq<Option<Record>>): nat {
    if verdicts == [] then 0
    else Got(verdicts[..|verdicts| - 1]) + (if verdicts[|verdicts| - 1].Some? then 1 else 0)
  }

  predicate ExactSet(artifacts: Artifacts, expected: seq<string>) {
    artifacts.Some? && artifacts.value.Keys == set v | v in expected :: Directory(v)
  }

  /** Missing, or a failure both sides classify alike, or a pass. */
  ghost predicate Reliable(verdicts: seq<Option<Record>>) {
    forall k :: 0 <= k < |verdicts| && verdicts[k].Some? ==> Explained(verdicts[k].value)
  }

  ghost predicate AllReceived(verdicts: seq<Option<Record>>) {
    forall k :: 0 <= k < |verdicts| ==> verdicts[k].Some?
  }

  ghost predicate AllOfKinds(verdicts: seq<Option<Record>>, kinds: set<Kind>) {
    forall k :: 0 <= k < |verdicts| ==> verdicts[k].Some? && KindOf(verdicts[k].value) in kinds
  }

  /** Each record is the received one or has the CI reason and counts as infrastructure. */
  ghost predicate Stands(records: seq<Record>, verdicts: seq<Option<Record>>) {
    && |records| == |verdicts|
    && forall k :: 0 <= k < |records| ==>
         if verdicts[k].Some? then records[k] == verdicts[k].value
         else records[k].reason == Some(CI_REASON) && KindOf(records[k]) == Infrastructure
  }

  lemma {:induction false} StandsBuilt(t: Tables, artifacts: Artifacts, inventory: seq<Release>, expected: seq<string>)
    ensures Stands(RecordsFor(t, artifacts, inventory, expected), Verdicts(t, artifacts, inventory, expected))
  {
    hide RecordOk, Directory, ReleaseFor;
    assert "failed" != "passed" && INFRASTRUCTURE !in COMPATIBILITY;
  }

  /** The two sides count deliveries alike exactly when no received record uses the CI reason. */
  lemma {:induction false} DeliveredIsGot(records: seq<Record>, verdicts: seq<Option<Record>>)
    requires Stands(records, verdicts)
    ensures Delivered(records) <= Got(verdicts)
    ensures Delivered(records) == Got(verdicts) <==>
              forall k :: 0 <= k < |verdicts| && verdicts[k].Some? ==> verdicts[k].value.reason != Some(CI_REASON)
  {
    hide KindOf;
    if records != [] {
      DeliveredIsGot(records[..|records| - 1], verdicts[..|verdicts| - 1]);
    }
  }

  /** A received record stays valid for the validator unless it uses the CI reason. */
  lemma {:induction false} StillOk(t: Tables, artifacts: Artifacts, release: Release)
    requires Verdict(t, artifacts, release).Some? ==> Verdict(t, artifacts, release).value.reason != Some(CI_REASON)
    ensures RecordOk(t, release, RecordFor(t, artifacts, release), true)
  {
    hide FlowsOk, FlowIds, Directory;
    assert "failed" != "passed";
  }

  /** The validator accepts the aggregate's own summary exactly when every received failure
      is explained. */
  lemma {:induction false} SidesAgree(t: Tables, artifacts: Artifacts, inventory: seq<Release>, expected: seq<string>,
                                      summary: Summary)
    requires AllReleases(inventory, expected)
    requires var records := RecordsFor(t, artifacts, inventory, expected);
             var verdicts := Verdicts(t, artifacts, inventory, expected);
             summary == Summary(|expected|, Got(verdicts), Count(records, Passed), Count(records, Incompatible),
                                Count(records, Infrastructure))
    ensures var records := RecordsFor(t, artifacts, inventory, expected);
            var verdicts := Verdicts(t, artifacts, inventory, expected);
            RecordsOk(t, inventory, expected, records) && summary == Recount(records) <==> Reliable(verdicts)
  {
    var records, verdicts := RecordsFor(t, artifacts, inventory, expected), Verdicts(t, artifacts, inventory, expected);
    StandsBuilt(t, artifacts, inventory, expected);
    DeliveredIsGot(records, verdicts);
    CountBounds(records, Unexplained);
    hide RecordOk, Directory, ReleaseFor, KindOf, Verdict, RecordFor, Count, Delivered, Got;
    if Reliable(verdicts) {
      forall k | 0 <= k < |records| ensures RecordOk(t, ReleaseAt(inventory, expected[k]), records[k], true) {
        assert verdicts[k].Some? ==> Explained(verdicts[k].value);
        StillOk(t, artifacts, ReleaseAt(inventory, expected[k]));
      }
    }
  }

  /** With the shared table every download is reliable, so an aggregate is never refused for
      its records. */
  lemma {:induction false} SharedTableReliable(t: Tables, artifacts: Artifacts, inventory: seq<Release>,
                                               expected: seq<string>)
    requires t.reasons == SHARED_REASONS
    ensures Reliable(Verdicts(t, artifacts, inventory, expected))
  {
    SharedReasonsGood(t);
    hide RecordOk, Explained, GoodReasons, ReleaseAt;
    forall k | 0 <= k < |expected| && Verdict(t, artifacts, ReleaseAt(inventory, expected[k])).Some?
      ensures Explained(Verdict(t, artifacts, ReleaseAt(inventory, expected[k])).value)
    {
      GoodReasonsIff(t, ReleaseAt(inventory, expected[k]));
    }
  }

  datatype Result = Result(code: int, report: Report)

  /** When the aggregate reports a pass, and when it reports a compatibility failure. */
  ghost predicate CodeOk(code: int, job: string, download: string, exact: bool, verdicts: seq<Option<Record>>) {
    && (code == 0 <==> job == "success" && download == "success" && exact && AllOfKinds(verdicts, {Passed}))
    && (code == 10 <==> job == "failure" && download == "success" && exact
                        && AllOfKinds(verdicts, {Passed, Incompatible}) && !AllOfKinds(verdicts, {Passed}))
    && (code == 0 || code == 10 || code == 20)
  }

  /** The exit code, from the counts. */
  function CodeOf(summary: Summary, job: string, download: string, setValid: bool): int {
    if Broken(summary, job, download, setValid) then 20 else if summary.compatibilityFailed > 0 then 10 else 0
  }

  lemma {:induction false} KindsCounted(records: seq<Record>, verdicts: seq<Option<Record>>)
    requires Stands(records, verdicts)
    ensures AllOfKinds(verdicts, {Passed}) <==> AllReceived(verdicts) && Count(records, Passed) == |records|
    ensures Reliable(verdicts) && AllReceived(verdicts) && Count(records, Infrastructure) == 0 ==>
              AllOfKinds(verdicts, {Passed, Incompatible})
    ensures AllOfKinds(verdicts, {Passed, Incompatible}) ==>
              AllReceived(verdicts) && Count(records, Infrastructure) == 0
    ensures Count(records, Incompatible) == 0 && AllOfKinds(verdicts, {Passed, Incompatible}) ==>
              AllOfKinds(verdicts, {Passed})
    ensures AllOfKinds(verdicts, {Passed}) ==>
              Count(records, Incompatible) == 0 && AllOfKinds(verdicts, {Passed, Incompatible})
  {
    CountBounds(records, Passed);
    CountBounds(records, Infrastructure);
    CountBounds(records, Incompatible);
    hide KindOf, Count;
  }

  lemma {:induction false} CodeMeaning(records: seq<Record>, verdicts: seq<Option<Record>>, summary: Summary,
                                       job: string, download: string, exact: bool)
    requires Stands(records, verdicts) && Reliable(verdicts) && |records| > 0
    requires summary.expected == |records| && summary.passed == Count(records, Passed)
    requires summary.compatibilityFailed == Count(records, Incompatible)
    requires summary.infrastructureFailed == Count(records, Infrastructure)
    ensures CodeOk(CodeOf(summary, job, download, exact && AllReceived(verdicts)), job, download, exact, verdicts)
  {
    KindsCounted(records, verdicts);
    hide Stands, Reliable, AllReceived, AllOfKinds, Count;
    assert "success" != "failure";
  }

  lemma {:induction false} GotSnoc(verdicts: seq<Option<Record>>, k: nat)
    requires k < |verdicts|
    ensures Got(verdicts[..k + 1]) == Got(verdicts[..k]) + (if verdicts[k].Some? then 1 else 0)
  {
    assert verdicts[..k + 1][..k] == verdicts[..k];
  }

  /** One record for every expected version, received or made up; refused at a version that
      is no exact inventory entry. */
  method Collect(t: Tables, artifacts: Artifacts, inventory: seq<Release>, expected: seq<string>)
    returns (ok: bool, records: seq<Record>, received: nat, complete: bool)
    ensures ok <==> AllReleases(inventory, expected)
    ensures ok ==> records == RecordsFor(t, artifacts, inventory, expected)
    ensures ok ==> received == Got(Verdicts(t, artifacts, inventory, expected))
    ensures ok ==> complete == AllReceived(Verdicts(t, artifacts, inventory, expected))
  {
    hide Verdict, ReleaseFor, Synthetic;
    ghost var verdicts := Verdicts(t, artifacts, inventory, expected);
    records, received, complete := [], 0, true;
    var k := 0;
    assert verdicts[..0] == [];
    while k < |expected|
      invariant 0 <= k <= |expected| && |records| == k && received == Got(verdicts[..k])
      invariant forall j :: 0 <= j < k ==> ReleaseFor(inventory, expected[j]).Some?
      invariant forall j :: 0 <= j < k ==> records[j] == RecordFor(t, artifacts, ReleaseAt(inventory, expected[j]))
      invariant complete == forall j :: 0 <= j < k ==> verdicts[j].Some?
    {
      var release := ReleaseFor(inventory, expected[k]);
      if release.None? {
        return false, records, received, complete;
      }
      var record := ReadRun(t, artifacts, release.value);
      GotSnoc(verdicts, k);
      if record.Some? {
        received := received + 1;
        records := records + [record.value];
      } else {
        complete := false;
        records := records + [Synthetic(release.value)];
      }
      k := k + 1;
    }
    assert verdicts[..k] == verdicts;
    ok := true;
  }

  /** `aggregate`. It ends with a report exactly when its inputs are sound and every received
      failure is explained; the report then satisfies the validator, and the exit code is 0
      exactly for a complete set of valid passing records with both jobs successful. */
  method Aggregate(t: Tables, profile: string, job: string, download: string, artifacts: Artifacts,
                   inventory: seq<Release>)
    returns (r: Option<Result>)
    ensures var expected := CiMatrix.Profile(profile, Texts(inventory));
            r.Some? <==> (job in JOB_RESULTS && download in JOB_RESULTS && expected.Some?
                          && AllReleases(inventory, expected.value)
                          && Reliable(Verdicts(t, artifacts, inventory, expected.value)))
    ensures r.Some? ==>
      var expected := CiMatrix.Profile(profile, Texts(inventory)).value;
      && ReportOk(t, inventory, r.value.report)
      && r.value.report.profile == profile && r.value.report.job == job && r.value.report.download == download
      && r.value.report.artifactSetValid
           == (ExactSet(artifacts, expected) && AllReceived(Verdicts(t, artifacts, inventory, expected)))
      && r.value.report.records == RecordsFor(t, artifacts, inventory, expected)
      && CodeOk(r.value.code, job, download, ExactSet(artifacts, expected), Verdicts(t, artifacts, inventory, expected))
    ensures r.Some? ==>
      && (r.value.code == 0 <==> r.value.report.outcome == "passed")
      && (r.value.code == 10 <==> r.value.report.outcome == "compatibility-failed")
      && (r.value.code == 20 <==> r.value.report.outcome == "infrastructure-failed")
  {
    hide CiMatrix.Profile, Verdicts, RecordsFor, RecordsOk, Recount, Reliable, AllReceived, CodeOk, Count, Got,
         ExactSet, AllReleases, Stands;
    if job !in JOB_RESULTS || download !in JOB_RESULTS {
      return None;
    }
    var chosen := CiMatrix.ProfileVersions(profile, Texts(inventory));
    if chosen.None? {
      return None;
    }
    var expected := chosen.value;
    ExpectedSome(profile, Texts(inventory));
    var exact := ExactSet(artifacts, expected);
    var known, records, received, complete := Collect(t, artifacts, inventory, expected);
    if !known {
      return None;
    }
    var setValid := exact && complete;
    var incompatible, broken := Count(records, Incompatible), Count(records, Infrastructure);
    var passed := Count(records, Passed);
    var infrastructure := broken > 0 || !setValid || download != "success";
    var wanted := if passed == |records| then "success" else "failure";
    if job != wanted {
      infrastructure := true;
    }
    var outcome, code;
    if infrastructure {
      outcome, code := "infrastructure-failed", 20;
    } else if incompatible > 0 {
      outcome, code := "compatibility-failed", 10;
    } else {
      outcome, code := "passed", 0;
    }
    var summary := Summary(|expected|, received, passed, incompatible, broken);
    var report := Report(profile, expected, job, download, setValid, outcome, summary, records);
    BuiltLength(t, artifacts, inventory, expected);
    SidesAgree(t, artifacts, inventory, expected, summary);
    StandsBuilt(t, artifacts, inventory, expected);
    var ok := ValidateAggregateReport(t, inventory, report);
    if !ok {
      return None;
    }
    CodeMeaning(records, Verdicts(t, artifacts, inventory, expected), summary, job, download, exact);
    r := Some(Result(code, report));
  }

  lemma {:induction false} BuiltLength(t: Tables, artifacts: Artifacts, inventory: seq<Release>, expected: seq<string>)
    ensures |RecordsFor(t, artifacts, inventory, expected)| == |expected|
  {
  }
}
