/** What the matrix of cells says about the registry it is built from, in literal texts,
    positions and sizes of sets (scripts/generate_openbao_version_contracts.py). */
module ContractMeaning {
  import opened Text
  import opened Sorting
  import opened Versions
  import opened Ranges
  import opened Registries
  import opened RegistryMeaning
  import opened Contracts

  // ----- One cell

  /** The cell of an operation whose state at the release is `state`. */
  ghost predicate CellFits(disposition: string, state: State, cell: Cell) {
    && cell.endpoint == state.evidence
    && match state.availability
       case "unavailable" =>
         && cell.availability == "unavailable" && cell.implementation == "not-applicable"
         && cell.request == "not-applicable-route-unavailable" && state.evidence == "none"
       case "security-blocked" =>
         && cell.availability == "documented" && cell.implementation == "security-blocked"
         && RequestFits(state.evidence, cell.request)
       case "documented" =>
         && cell.availability == "documented" && cell.implementation == disposition
         && RequestFits(state.evidence, cell.request)
       case _ => false
  }

  ghost predicate RequestFits(evidence: string, request: string) {
    || (evidence == "tagged-documentation" && request == "tagged-contract-fields")
    || (evidence == "locked-openapi" && request == "locked-openapi-schema")
    || (evidence == "corrected-2.5.5-contract" && request == "reviewed-current-contract")
  }

  /** The operation has exactly one range with the release, and the cell fits its state. */
  ghost predicate CellSays(op: Operation, version: Version, cell: Cell) {
    exists state :: OnlyHas(op.ranges, version, state) && CellFits(op.disposition, state, cell)
  }

  lemma {:induction false} CellMeans(disposition: string, state: State)
    requires state in ALLOWED
    ensures CellFor(disposition, state).Some? && CellFits(disposition, state, CellFor(disposition, state).value)
  {
  }

  lemma {:induction false} CellAtMeans(versions: seq<Version>, op: Operation, version: Version)
    requires Ascending(versions) && Accepted(versions, op.ranges) && version in versions
    ensures CellSays(op, version, CellAt(op, version))
  {
    hide ALLOWED, CellFor, CellFits, OnlyHas, Accepted, Matches, Ascending;
    AcceptedLookup(versions, op.ranges, version);
    var state := StateAt(op, version);
    StateAllowed(versions, op, version);
    CellMeans(op.disposition, state);
    OnlyIs(op.ranges, version, state);
    assert OnlyHas(op.ranges, version, state);
  }

  // ----- Counts

  ghost function WithAvailability(cells: seq<Cell>, name: string): set<nat> {
    set i: nat | i < |cells| && cells[i].availability == name
  }

  ghost function WithImplementation(cells: seq<Cell>, name: string): set<nat> {
    set i: nat | i < |cells| && cells[i].implementation == name
  }

  lemma {:induction false} AvailableIs(cells: seq<Cell>, name: string)
    ensures Available(cells, name) == |WithAvailability(cells, name)|
  {
    if cells != [] {
      var n := |cells| - 1;
      AvailableIs(cells[..n], name);
      assert WithAvailability(cells, name)
          == WithAvailability(cells[..n], name) + (if cells[n].availability == name then {n} else {});
    } else {
      assert WithAvailability(cells, name) == {};
    }
  }

  lemma {:induction false} ImplementedIs(cells: seq<Cell>, name: string)
    ensures Implemented(cells, name) == |WithImplementation(cells, name)|
  {
    if cells != [] {
      var n := |cells| - 1;
      ImplementedIs(cells[..n], name);
      assert WithImplementation(cells, name)
          == WithImplementation(cells[..n], name) + (if cells[n].implementation == name then {n} else {});
    } else {
      assert WithImplementation(cells, name) == {};
    }
  }

  ghost predicate SummaryCounts(cells: seq<Cell>, s: Summary) {
    && s.coverage == 10_000
    && s.documented == |WithAvailability(cells, "documented")|
    && s.unavailable == |WithAvailability(cells, "unavailable")|
    && s.blocked == |WithImplementation(cells, "security-blocked")|
    && s.typed == |WithImplementation(cells, "typed")|
    && s.gated == |WithImplementation(cells, "typed-gated")|
  }

  lemma {:induction false} SummaryMeans(cells: seq<Cell>, s: Summary)
    ensures s == SummaryOf(cells) <==> SummaryCounts(cells, s)
  {
    AvailableIs(cells, "documented");
    AvailableIs(cells, "unavailable");
    ImplementedIs(cells, "security-blocked");
    ImplementedIs(cells, "typed");
    ImplementedIs(cells, "typed-gated");
    hide Available, Implemented, WithAvailability, WithImplementation;
  }

  /** The operations that the release documents: their first range with it says so. */
  ghost function Documented(ops: seq<Operation>, version: Version): set<nat> {
    set i: nat | i < |ops| && HasState(ops[i].ranges, version, "documented")
  }

  ghost function BlockedState(ops: seq<Operation>, version: Version): set<nat> {
    set i: nat | i < |ops| && HasState(ops[i].ranges, version, "security-blocked")
  }

  ghost function Disposed(ops: seq<Operation>, name: string): set<nat> {
    set i: nat | i < |ops| && ops[i].disposition == name
  }

  /** The summary of a release, by operations: blocked are those whose state is, and the
      documented ones whose disposition is. */
  ghost predicate SummarySays(ops: seq<Operation>, version: Version, s: Summary) {
    var documented, blocked := Documented(ops, version), BlockedState(ops, version);
    && s.coverage == 10_000
    && s.documented == |documented + blocked|
    && s.unavailable == |ops| - |documented + blocked|
    && s.blocked == |blocked + documented * Disposed(ops, "security-blocked")|
    && s.typed == |documented * Disposed(ops, "typed")|
    && s.gated == |documented * Disposed(ops, "typed-gated")|
  }

  lemma {:induction false} OnlyState(ranges: seq<Item<State>>, version: Version, state: State, availability: string)
    requires OnlyHas(ranges, version, state)
    ensures HasState(ranges, version, availability) <==> state.availability == availability
  {
    OnlyIs(ranges, version, state);
    HasStateIs(ranges, version, availability);
    hide HasState, OnlyHas, Matches;
  }

  /** One operation, as the sets see it. */
  lemma {:induction false} CellSets(op: Operation, version: Version, cell: Cell)
    requires CellSays(op, version, cell) && op.disposition in ALLOWED_DISPOSITIONS
    ensures var documented, blocked :=
              HasState(op.ranges, version, "documented"), HasState(op.ranges, version, "security-blocked");
            && (cell.availability == "documented" <==> documented || blocked)
            && (cell.availability == "unavailable" <==> !documented && !blocked)
            && (cell.implementation == "security-blocked" <==>
                  blocked || (documented && op.disposition == "security-blocked"))
            && (cell.implementation == "typed" <==> documented && op.disposition == "typed")
            && (cell.implementation == "typed-gated" <==> documented && op.disposition == "typed-gated")
  {
    var state :| OnlyHas(op.ranges, version, state) && CellFits(op.disposition, state, cell);
    OnlyState(op.ranges, version, state, "documented");
    OnlyState(op.ranges, version, state, "security-blocked");
    hide HasState, OnlyHas, RequestFits;
    FitSets(op.disposition, state, cell);
  }

  lemma {:induction false} FitSets(disposition: string, state: State, cell: Cell)
    requires CellFits(disposition, state, cell) && disposition in ALLOWED_DISPOSITIONS
    ensures cell.availability == "documented" <==> state.availability in {"documented", "security-blocked"}
    ensures cell.availability == "unavailable" <==> state.availability !in {"documented", "security-blocked"}
    ensures cell.implementation == "security-blocked" <==>
              state.availability == "security-blocked"
              || (state.availability == "documented" && disposition == "security-blocked")
    ensures cell.implementation == "typed" <==> state.availability == "documented" && disposition == "typed"
    ensures cell.implementation == "typed-gated" <==> state.availability == "documented" && disposition == "typed-gated"
  {
    assert "not-applicable" !in ALLOWED_DISPOSITIONS;
  }

  lemma {:induction false} BuiltSummary(ops: seq<Operation>, version: Version, cells: seq<Cell>, s: Summary)
    requires |cells| == |ops| && SummaryCounts(cells, s)
    requires forall i :: 0 <= i < |ops| ==>
               CellSays(ops[i], version, cells[i]) && ops[i].disposition in ALLOWED_DISPOSITIONS
    ensures SummarySays(ops, version, s)
  {
    var documented, blocked := Documented(ops, version), BlockedState(ops, version);
    BuiltSets(ops, version, cells);
    hide Documented, BlockedState, Disposed, WithAvailability, WithImplementation, CellSays, ALLOWED_DISPOSITIONS;
    assert |WithAvailability(cells, "unavailable")| == |ops| - |documented + blocked|;
  }

  lemma {:induction false} BuiltSets(ops: seq<Operation>, version: Version, cells: seq<Cell>)
    requires |cells| == |ops|
    requires forall i :: 0 <= i < |ops| ==>
               CellSays(ops[i], version, cells[i]) && ops[i].disposition in ALLOWED_DISPOSITIONS
    ensures var documented, blocked := Documented(ops, version), BlockedState(ops, version);
            && documented + blocked == WithAvailability(cells, "documented")
            && |WithAvailability(cells, "unavailable")| == |ops| - |documented + blocked|
            && blocked + documented * Disposed(ops, "security-blocked") == WithImplementation(cells, "security-blocked")
            && documented * Disposed(ops, "typed") == WithImplementation(cells, "typed")
            && documented * Disposed(ops, "typed-gated") == WithImplementation(cells, "typed-gated")
  {
    hide CellSays, HasState, ALLOWED_DISPOSITIONS;
    forall i: nat | i < |ops|
      ensures var documented, blocked :=
                HasState(ops[i].ranges, version, "documented"), HasState(ops[i].ranges, version, "security-blocked");
              && (cells[i].availability == "documented" <==> documented || blocked)
              && (cells[i].availability == "unavailable" <==> !documented && !blocked)
              && (cells[i].implementation == "security-blocked" <==>
                    blocked || (documented && ops[i].disposition == "security-blocked"))
              && (cells[i].implementation == "typed" <==> documented && ops[i].disposition == "typed")
              && (cells[i].implementation == "typed-gated" <==> documented && ops[i].disposition == "typed-gated")
    {
      CellSets(ops[i], version, cells[i]);
    }
    Rest(Documented(ops, version) + BlockedState(ops, version), WithAvailability(cells, "unavailable"), |ops|);
  }

  lemma {:induction false} Rest(part: set<nat>, other: set<nat>, n: nat)
    requires forall i: nat :: i < n ==> (i in part <==> i !in other)
    requires forall i :: i in part || i in other ==> i < n
    ensures |other| == n - |part|
  {
    if n == 0 {
      assert part == {} && other == {};
    } else {
      var k: nat := n - 1;
      Rest(part - {k}, other - {k}, k);
    }
  }

  // ----- Evidence

  /** The identifiers of the flows with this status, in order. */
  ghost predicate Selects(flows: seq<CoreFlow>, status: string, ids: seq<string>) {
    exists at: seq<nat> :: SelectedAt(flows, status, ids, at)
  }

  ghost predicate SelectedAt(flows: seq<CoreFlow>, status: string, ids: seq<string>, at: seq<nat>) {
    && |at| == |ids|
    && (forall n, m :: 0 <= n < m < |at| ==> at[n] < at[m])
    && (forall n :: 0 <= n < |at| ==>
          at[n] < |flows| && flows[at[n]].status == status && flows[at[n]].id == ids[n])
    && forall i: nat :: i < |flows| && flows[i].status == status ==> i in at
  }

  lemma {:induction false} FlowsAt(flows: seq<CoreFlow>, status: string) returns (at: seq<nat>)
    ensures SelectedAt(flows, status, FlowsWith(flows, status), at)
  {
    at := [];
    if flows != [] {
      var n: nat := |flows| - 1;
      at := FlowsAt(flows[..n], status);
      FlowsSnoc(flows[..n], flows[n], status);
      FrontLast(flows);
      hide FlowsWith;
      forall i: nat | i < n && flows[i].status == status ensures i in at {
        assert flows[..n][i] == flows[i];
      }
      if flows[n].status == status {
        at := at + [n];
      }
    }
  }

  lemma {:induction false} FlowsSnoc(flows: seq<CoreFlow>, flow: CoreFlow, status: string)
    ensures FlowsWith(flows + [flow], status)
         == FlowsWith(flows, status) + (if flow.status == status then [flow.id] else [])
  {
    if flows == [] {
      assert [flow][1..] == [];
      assert flows + [flow] == [flow];
    } else {
      FlowsSnoc(flows[1..], flow, status);
      AppendHead(flows, [flow]);
      AppendAssoc(if flows[0].status == status then [flows[0].id] else [], FlowsWith(flows[1..], status),
                  if flow.status == status then [flow.id] else []);
    }
  }

  /** A selection is determined by the flows. */
  lemma {:induction false} SelectedOnce(flows: seq<CoreFlow>, status: string, ids: seq<string>)
    requires Selects(flows, status, ids)
    ensures ids == FlowsWith(flows, status)
  {
    var at: seq<nat> :| SelectedAt(flows, status, ids, at);
    var to := FlowsAt(flows, status);
    SameAscending(at, to);
    hide FlowsWith;
  }

  /** The four releases in which all flows ran. */
  predicate RunsAll(version: Version) {
    version.major == 2 && version.minor == 6 && version.patch <= 3
  }

  /** What a release must have passed and what it must have skipped. */
  ghost predicate Expects(names: seq<string>, version: Version, passed: seq<string>, skipped: seq<string>) {
    && passed + skipped == names
    && (RunsAll(version) ==> skipped == [])
    && (!RunsAll(version) ==> |passed| == if |names| < 8 then |names| else 8)
  }

  lemma {:induction false} LiveMeans(names: seq<string>, version: Version, live: Live)
    ensures live == LiveOf(names, version) <==> Expects(names, version, live.passed, live.skipped)
  {
    assert version in FULL_FLOW <==> RunsAll(version);
    hide FULL_FLOW, RunsAll;
    if |names| > 8 {
      assert names[..8] + names[8..] == names;
    }
    if Expects(names, version, live.passed, live.skipped) {
      assert live.passed == names[..|live.passed|] && live.skipped == names[|live.passed|..];
    }
  }

  /** The flows that passed and those that were skipped are the ones to expect. */
  ghost predicate FlowsFit(names: seq<string>, flows: seq<CoreFlow>, version: Version) {
    exists passed, skipped ::
      && Selects(flows, "passed", passed) && Selects(flows, "skipped", skipped)
      && Expects(names, version, passed, skipped)
  }

  lemma {:induction false} FlowsFitIs(names: seq<string>, flows: seq<CoreFlow>, version: Version)
    ensures Live(FlowsWith(flows, "passed"), FlowsWith(flows, "skipped")) == LiveOf(names, version)
        <==> FlowsFit(names, flows, version)
  {
    var passed, skipped := FlowsWith(flows, "passed"), FlowsWith(flows, "skipped");
    LiveMeans(names, version, Live(passed, skipped));
    var at := FlowsAt(flows, "passed");
    var to := FlowsAt(flows, "skipped");
    hide FlowsWith, LiveOf, Expects, SelectedAt;
    assert Selects(flows, "passed", passed) && Selects(flows, "skipped", skipped);
    hide Selects;
    if p, s :| Selects(flows, "passed", p) && Selects(flows, "skipped", s) && Expects(names, version, p, s) {
      SelectedOnce(flows, "passed", p);
      SelectedOnce(flows, "skipped", s);
    }
  }

  /** The gates a release must pass. */
  ghost predicate EvidenceFits(names: seq<string>, sources: Sources, version: Version)
    requires version in sources.core && version in sources.hashes
  {
    var core := sources.core[version];
    && core.outcome == "passed" && core.compatibility == "tested-subset"
    && sources.hashes[version] != None && core.flows != [] && FlowsFit(names, core.flows, version)
  }

  lemma {:induction false} EvidenceMeans(names: seq<string>, sources: Sources, version: Version)
    requires version in sources.core && version in sources.hashes
    ensures EvidenceOk(names, sources, version) <==> EvidenceFits(names, sources, version)
  {
    FlowsFitIs(names, sources.core[version].flows, version);
    hide FlowsWith, LiveOf, FlowsFit;
  }

  // ----- The validator

  predicate Settled(text: string) {
    && text != "planned" && text != "decision" && text != "partial" && text != "raw" && text != "external"
    && text != "rejected" && text != "unlinked"
  }

  /** A cell the validator lets pass. */
  predicate CellPasses(disposition: string, cell: Cell) {
    && Settled(cell.endpoint) && Settled(cell.implementation) && Settled(cell.request)
    && match cell.availability
       case "documented" =>
         && (cell.implementation == disposition || cell.implementation == "security-blocked")
         && cell.endpoint != "none" && cell.request != "not-applicable-route-unavailable"
       case "unavailable" =>
         cell == Cell("unavailable", "none", "not-applicable", "not-applicable-route-unavailable")
       case _ => false
  }

  lemma {:induction false} CellPassesIs(disposition: string, cell: Cell)
    ensures CellOk(disposition, cell) <==> CellPasses(disposition, cell)
  {
    SettledIs(cell.availability);
    SettledIs(cell.endpoint);
    SettledIs(cell.implementation);
    SettledIs(cell.request);
    assert Settled("documented") && Settled("unavailable");
    hide FORBIDDEN, Settled;
  }

  lemma {:induction false} SettledIs(text: string)
    ensures Settled(text) <==> text !in FORBIDDEN
  {
  }

  /** The places of the documented cells: release and operation. */
  ghost function DocumentedPlaces(profiles: seq<Profile>): set<(nat, nat)> {
    set k: nat, i: nat | k < |profiles| && i < |profiles[k].cells| && profiles[k].cells[i].availability == "documented"
      :: (k, i)
  }

  lemma {:induction false} PlacesCount(profiles: seq<Profile>)
    ensures DocumentedCells(profiles) == |DocumentedPlaces(profiles)|
  {
    if profiles == [] {
      assert DocumentedPlaces(profiles) == {};
    } else {
      var n: nat := |profiles| - 1;
      PlacesCount(profiles[..n]);
      var cells := profiles[n].cells;
      AvailableIs(cells, "documented");
      var here := WithAvailability(cells, "documented");
      PairSize(n, here);
      PlacesStep(profiles, n);
      hide DocumentedPlaces, Paired, WithAvailability;
    }
  }

  lemma {:induction false} PlacesStep(profiles: seq<Profile>, n: nat)
    requires |profiles| == n + 1
    ensures DocumentedPlaces(profiles)
         == DocumentedPlaces(profiles[..n]) + Paired(n, WithAvailability(profiles[n].cells, "documented"))
    ensures DocumentedPlaces(profiles[..n]) !! Paired(n, WithAvailability(profiles[n].cells, "documented"))
  {
  }

  ghost function Paired(n: nat, here: set<nat>): set<(nat, nat)> {
    set i | i in here :: (n, i)
  }

  lemma {:induction false} PairSize(n: nat, here: set<nat>)
    ensures |Paired(n, here)| == |here|
  {
    if here != {} {
      var i :| i in here;
      PairSize(n, here - {i});
      assert Paired(n, here) == Paired(n, here - {i}) + {(n, i)};
    } else {
      assert Paired(n, here) == {};
    }
  }

  /** What the validator asks of one release. */
  ghost predicate ProfilePasses(names: seq<string>, rows: seq<Row>, profile: Profile) {
    && |profile.cells| == |rows|
    && (forall i :: 0 <= i < |rows| ==> CellPasses(rows[i].disposition, profile.cells[i]))
    && SummaryCounts(profile.cells, profile.summary)
    && Expects(names, profile.version, profile.live.passed, profile.live.skipped)
    && Hex(profile.hash)
  }

  predicate Hex(s: string) {
    |s| == 64 && forall i :: 0 <= i < |s| ==> s[i] in "0123456789abcdef"
  }

  /** What the validator asks of a matrix. */
  ghost predicate MatrixPasses(names: seq<string>, m: Matrix, expected: seq<Version>) {
    && ProfilesPass(names, m, expected) && RowsPass(m.operations)
    && m.totals.cells == |m.operations| * |expected| && m.totals.coverage == 10_000
    && m.totals.operations == |m.operations| && m.totals.profiles == |expected|
    && m.totals.documented == m.totals.resolved == |DocumentedPlaces(m.profiles)|
  }

  /** Identifiers strictly ascend and every disposition is settled. */
  ghost predicate RowsPass(rows: seq<Row>) {
    && (forall i, j :: 0 <= i < j < |rows| ==> StringLess(rows[i].id, rows[j].id))
    && forall i :: 0 <= i < |rows| ==>
         || rows[i].disposition == "typed" || rows[i].disposition == "typed-gated"
         || rows[i].disposition == "security-blocked"
  }

  lemma {:induction false} HexIs(s: string)
    ensures HexDigest(s) <==> Hex(s)
  {
    forall c: char ensures c in "0123456789abcdef" <==> '0' <= c <= '9' || 'a' <= c <= 'f' {
      HexChar(c);
    }
  }

  lemma {:induction false} HexChar(c: char)
    ensures c in "0123456789abcdef" <==> '0' <= c <= '9' || 'a' <= c <= 'f'
  {
    var all := "0123456789abcdef";
    assert all[0] == '0' && all[1] == '1' && all[2] == '2' && all[3] == '3' && all[4] == '4' && all[5] == '5';
    assert all[6] == '6' && all[7] == '7' && all[8] == '8' && all[9] == '9' && all[10] == 'a' && all[11] == 'b';
    assert all[12] == 'c' && all[13] == 'd' && all[14] == 'e' && all[15] == 'f';
  }

  lemma {:induction false} ProfilePassesIs(names: seq<string>, rows: seq<Row>, profile: Profile)
    ensures ProfileOk(names, rows, profile) <==> ProfilePasses(names, rows, profile)
  {
    forall i | 0 <= i < |rows| && |rows| == |profile.cells|
      ensures CellOk(rows[i].disposition, profile.cells[i]) <==> CellPasses(rows[i].disposition, profile.cells[i])
    {
      CellPassesIs(rows[i].disposition, profile.cells[i]);
    }
    SummaryMeans(profile.cells, profile.summary);
    LiveMeans(names, profile.version, profile.live);
    HexIs(profile.hash);
    hide CellOk, CellPasses, SummaryOf, SummaryCounts, LiveOf, Expects, HexDigest, Hex;
  }

  ghost predicate ProfilesPass(names: seq<string>, m: Matrix, expected: seq<Version>) {
    && |m.profiles| == |expected|
    && forall k :: 0 <= k < |expected| ==>
         m.profiles[k].version == expected[k] && ProfilePasses(names, m.operations, m.profiles[k])
  }

  lemma {:induction false} ProfilesPassIs(names: seq<string>, m: Matrix, expected: seq<Version>)
    ensures ProfilesPass(names, m, expected) <==>
              && ProfileVersions(m.profiles) == expected
              && forall k :: 0 <= k < |m.profiles| ==> ProfileOk(names, m.operations, m.profiles[k])
  {
    forall k | 0 <= k < |m.profiles|
      ensures ProfileOk(names, m.operations, m.profiles[k]) <==> ProfilePasses(names, m.operations, m.profiles[k])
    {
      ProfilePassesIs(names, m.operations, m.profiles[k]);
    }
    VersionsIs(m.profiles, expected);
    hide ProfileOk, ProfilePasses, ProfileVersions;
  }

  lemma {:induction false} MatrixPassesIs(names: seq<string>, m: Matrix, expected: seq<Version>)
    ensures MatrixOk(names, m, expected) <==> MatrixPasses(names, m, expected)
  {
    ProfilesPassIs(names, m, expected);
    PlacesCount(m.profiles);
    RowsIs(m.operations);
    VersionsIs(m.profiles, expected);
    hide ProfilesPass, ProfileOk, DocumentedCells, DocumentedPlaces, RowsOk, RowsPass, ProfileVersions;
  }

  lemma {:induction false} VersionsIs(profiles: seq<Profile>, expected: seq<Version>)
    ensures ProfileVersions(profiles) == expected
        <==> |profiles| == |expected| && forall k :: 0 <= k < |expected| ==> profiles[k].version == expected[k]
  {
  }

  lemma {:induction false} RowsIs(rows: seq<Row>)
    ensures RowsOk(rows) <==> RowsPass(rows)
  {
    hide StringLess;
    var ids := RowIds(rows);
    if RowsOk(rows) {
      forall i, j | 0 <= i < j < |rows| ensures StringLess(rows[i].id, rows[j].id) {
        assert StringLess(ids[i], ids[j]);
      }
    }
  }

  // ----- The whole matrix

  /** The registry's operation, in the matrix. */
  ghost predicate RowSays(op: Operation, row: Row) {
    row.id == op.id && row.route == op.route && row.disposition == op.disposition
  }

  /** Some operation is documented or blocked at the release. */
  ghost predicate Present(ops: seq<Operation>, version: Version) {
    exists i :: 0 <= i < |ops|
      && (HasState(ops[i].ranges, version, "documented") || HasState(ops[i].ranges, version, "security-blocked"))
  }

  lemma {:induction false} CoverIs(sources: Sources, versions: seq<Version>)
    ensures SourcesCover(sources, versions) <==>
              && (forall v :: v in sources.core <==> v in versions)
              && forall v :: v in sources.hashes <==> v in versions
  {
  }

  lemma {:induction false} StatePresent(versions: seq<Version>, op: Operation, version: Version)
    requires Ascending(versions) && Accepted(versions, op.ranges) && version in versions
    ensures StateAt(op, version).availability != "unavailable"
        <==> HasState(op.ranges, version, "documented") || HasState(op.ranges, version, "security-blocked")
  {
    StateAllowed(versions, op, version);
    HasStateIs(op.ranges, version, "documented");
    HasStateIs(op.ranges, version, "security-blocked");
    hide Accepted, Ascending, HasState, Lookup;
  }

  lemma {:induction false} PresentIs(registry: Registry, version: Version)
    requires Validated(registry) && version in registry.versions
    ensures Offered(registry.operations, version) <==> Present(registry.operations, version)
  {
    hide HasState, StateAt, Accepted, Ascending, StrictlySorted, StringLess;
    var ops := registry.operations;
    forall i | 0 <= i < |ops|
      ensures StateAt(ops[i], version).availability != "unavailable"
          <==> HasState(ops[i].ranges, version, "documented") || HasState(ops[i].ranges, version, "security-blocked")
    {
      StatePresent(registry.versions, ops[i], version);
    }
  }

  lemma {:induction false} CellsSay(names: seq<string>, registry: Registry, m: Matrix, k: nat)
    requires Validated(registry) && k < |registry.versions| == |m.profiles|
    requires m.profiles[k].cells == CellsAt(registry.operations, registry.versions[k])
    requires m.profiles[k].summary == SummaryOf(m.profiles[k].cells)
    ensures |m.profiles[k].cells| == |registry.operations|
    ensures forall i :: 0 <= i < |registry.operations| ==>
              CellSays(registry.operations[i], registry.versions[k], m.profiles[k].cells[i])
    ensures SummarySays(registry.operations, registry.versions[k], m.profiles[k].summary)
  {
    hide CellSays, CellAt, Accepted, Ascending, StrictlySorted, StringLess, SummarySays, SummaryCounts, SummaryOf;
    var ops, version, cells := registry.operations, registry.versions[k], m.profiles[k].cells;
    forall i | 0 <= i < |ops| ensures CellSays(ops[i], version, cells[i]) {
      CellAtMeans(registry.versions, ops[i], version);
    }
    SummaryMeans(cells, m.profiles[k].summary);
    BuiltSummary(ops, version, cells, m.profiles[k].summary);
  }

  lemma {:induction false} BuiltParts(names: seq<string>, m: Matrix, versions: seq<Version>, k: nat)
    requires MatrixOk(names, m, versions) && k < |versions|
    ensures |m.profiles| == |versions| && m.profiles[k].summary == SummaryOf(m.profiles[k].cells)
  {
    VersionsIs(m.profiles, versions);
    assert ProfileOk(names, m.operations, m.profiles[k]);
  }

  /** The conditions of `BuildMatrix` on one release. */
  ghost predicate Gate(names: seq<string>, sources: Sources, registry: Registry, version: Version)
    requires version in sources.core && version in sources.hashes
  {
    && EvidenceOk(names, sources, version) && HexDigest(sources.hashes[version].value)
    && Offered(registry.operations, version)
  }

  /** A release that passes its evidence gates, has a digest and has an operation. */
  ghost predicate Passes(names: seq<string>, sources: Sources, registry: Registry, version: Version)
    requires version in sources.core && version in sources.hashes
  {
    && EvidenceFits(names, sources, version) && Hex(sources.hashes[version].value)
    && Present(registry.operations, version)
  }

  lemma {:induction false} GateIs(names: seq<string>, sources: Sources, registry: Registry, version: Version)
    requires version in sources.core && version in sources.hashes
    requires Validated(registry) && version in registry.versions
    ensures Gate(names, sources, registry, version) <==> Passes(names, sources, registry, version)
  {
    hide HexDigest, Hex, FlowsWith, LiveOf, FlowsFit, Offered, Present, Accepted, Ascending;
    EvidenceMeans(names, sources, version);
    PresentIs(registry, version);
    if EvidenceOk(names, sources, version) {
      HexIs(sources.hashes[version].value);
    }
  }

  /** `build_matrix`: it succeeds exactly when the evidence covers the releases and every
      release passes its gates, has a digest and has an operation; the cells, the counts and
      the evidence of every release are then those of the registry. */
  method BuildContracts(names: seq<string>, sources: Sources, registry: Registry) returns (r: Option<Matrix>)
    requires Validated(registry)
    ensures r.Some? <==>
      && (forall v :: v in sources.core <==> v in registry.versions)
      && (forall v :: v in sources.hashes <==> v in registry.versions)
      && forall v :: v in registry.versions ==> Passes(names, sources, registry, v)
    ensures r.Some? ==>
      && |r.value.profiles| == |registry.versions| && |r.value.operations| == |registry.operations|
      && (forall i :: 0 <= i < |registry.operations| ==> RowSays(registry.operations[i], r.value.operations[i]))
      && MatrixPasses(names, r.value, registry.versions)
    ensures r.Some? ==> forall k :: 0 <= k < |registry.versions| ==>
      && |r.value.profiles[k].cells| == |registry.operations|
      && (forall i :: 0 <= i < |registry.operations| ==>
            CellSays(registry.operations[i], registry.versions[k], r.value.profiles[k].cells[i]))
      && SummarySays(registry.operations, registry.versions[k], r.value.profiles[k].summary)
  {
    hide EvidenceOk, Passes, HexDigest, Offered, MatrixOk, MatrixPasses, Accepted, Ascending, StringLess,
         StrictlySorted, SummarySays, CellSays, CellAt;
    r := BuildMatrix(names, sources, registry);
    CoverIs(sources, registry.versions);
    if SourcesCover(sources, registry.versions) {
      forall v | v in registry.versions
        ensures Gate(names, sources, registry, v) <==> Passes(names, sources, registry, v)
      {
        GateIs(names, sources, registry, v);
      }
    }
    if r.Some? {
      MatrixPassesIs(names, r.value, registry.versions);
      BuiltParts(names, r.value, registry.versions, 0);
      forall k | 0 <= k < |registry.versions|
        ensures k < |r.value.profiles| && |r.value.profiles[k].cells| == |registry.operations|
        ensures forall i :: 0 <= i < |registry.operations| ==>
                  CellSays(registry.operations[i], registry.versions[k], r.value.profiles[k].cells[i])
        ensures SummarySays(registry.operations, registry.versions[k], r.value.profiles[k].summary)
      {
        BuiltParts(names, r.value, registry.versions, k);
        CellsSay(names, registry, r.value, k);
      }
    }
  }
}
