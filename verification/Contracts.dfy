/** The per-release contract matrix built from a validated registry, and its validator
    (scripts/generate_openbao_version_contracts.py). */
module Contracts {
  import opened Text
  import opened Sorting
  import opened Versions
  import opened Ranges
  import opened Registries

  const ALLOWED_DISPOSITIONS := {"typed", "typed-gated", "security-blocked"}
  const ALLOWED_AVAILABILITY := {"documented", "security-blocked", "unavailable"}
  const FORBIDDEN := {"planned", "decision", "partial", "raw", "external", "rejected", "unlinked"}
  const NO_ROUTE := "not-applicable-route-unavailable"
  const FULL := 10_000

  /** What the matrix keeps of an operation of the registry. */
  datatype Row = Row(id: string, route: Route, disposition: string)

  datatype Cell = Cell(availability: string, endpoint: string, implementation: string, request: string)
  datatype Summary =
    Summary(coverage: int, documented: nat, blocked: nat, typed: nat, gated: nat, unavailable: nat)
  datatype Profile = Profile(version: Version, cells: seq<Cell>, summary: Summary, live: Live, hash: string)
  datatype Totals =
    Totals(cells: nat, coverage: int, documented: nat, operations: nat, profiles: nat, resolved: nat)
  datatype Matrix = Matrix(operations: seq<Row>, profiles: seq<Profile>, totals: Totals)

  /** The part of `validate_registry` the matrix relies on. */
  ghost predicate Validated(r: Registry) {
    && Ascending(r.versions) && r.versions != [] && OpsOk(r.versions, r.operations)
    && StrictlySorted(Ids(r.operations), StringLess)
  }

  // ----- Evidence from the core flows and the response fixtures

  const BASE_FLOWS := 8
  const FULL_FLOW := {Version(2, 6, 0), Version(2, 6, 1), Version(2, 6, 2), Version(2, 6, 3)}

  datatype CoreFlow = CoreFlow(id: string, status: string)
  datatype CoreRecord = CoreRecord(outcome: string, compatibility: string, flows: seq<CoreFlow>)

  /** The flows a release passed and those it skipped. */
  datatype Live = Live(passed: seq<string>, skipped: seq<string>)

  /** The core record and the fixture's OpenAPI hash (None for a null) of every release. */
  datatype Sources = Sources(core: map<Version, CoreRecord>, hashes: map<Version, Option<string>>)

  function FlowsWith(flows: seq<CoreFlow>, status: string): seq<string> {
    if flows == [] then []
    else (if flows[0].status == status then [flows[0].id] else []) + FlowsWith(flows[1..], status)
  }

  /** All flows ran where they exist; elsewhere exactly the base flows, the others skipped. */
  function LiveOf(names: seq<string>, version: Version): Live {
    if version in FULL_FLOW || |names| <= BASE_FLOWS then Live(names, [])
    else Live(names[..BASE_FLOWS], names[BASE_FLOWS..])
  }

  ghost predicate SourcesCover(sources: Sources, versions: seq<Version>) {
    sources.core.Keys == ToSet(versions) && sources.hashes.Keys == ToSet(versions)
  }

  /** The evidence gates of `build_matrix` for one release. */
  predicate EvidenceOk(names: seq<string>, sources: Sources, version: Version)
    requires version in sources.core && version in sources.hashes
  {
    var core := sources.core[version];
    && core.outcome == "passed" && core.compatibility == "tested-subset" && sources.hashes[version].Some?
    && core.flows != []
    && Live(FlowsWith(core.flows, "passed"), FlowsWith(core.flows, "skipped")) == LiveOf(names, version)
  }

  predicate HexDigest(s: string) {
    |s| == 64 && forall i :: 0 <= i < |s| ==> '0' <= s[i] <= '9' || 'a' <= s[i] <= 'f'
  }

  // ----- Percentages

  /** `percent_basis_points` */
  function PercentBasisPoints(numerator: int, denominator: int): (r: Option<int>)
    ensures r.Some? <==> 0 <= numerator <= denominator && denominator > 0
    ensures r.Some? ==> r.value * denominator <= numerator * FULL < (r.value + 1) * denominator
    ensures r == Some(FULL) <==> numerator == denominator > 0
  {
    if denominator <= 0 || numerator < 0 || numerator > denominator then None
    else
      assert numerator * FULL / denominator * denominator + numerator * FULL % denominator == numerator * FULL;
      Some(numerator * FULL / denominator)
  }

  // ----- Cells

  function RequestEvidence(endpoint: string): Option<string> {
    if endpoint == "tagged-documentation" then Some("tagged-contract-fields")
    else if endpoint == "locked-openapi" then Some("locked-openapi-schema")
    else if endpoint == "corrected-2.5.5-contract" then Some("reviewed-current-contract")
    else None
  }

  /** The cell for an operation in a given state; None for a refusal. */
  function CellFor(disposition: string, state: State): Option<Cell> {
    if state.availability !in ALLOWED_AVAILABILITY then None
    else if state.availability == "unavailable" then
      Some(Cell("unavailable", state.evidence, "not-applicable", NO_ROUTE))
    else
      var request := RequestEvidence(state.evidence);
      if request.None? then None
      else
        Some(Cell("documented", state.evidence,
                  if state.availability == "security-blocked" then "security-blocked" else disposition,
                  request.value))
  }

  /** The checks of `validate_matrix` on one cell. */
  predicate CellOk(disposition: string, cell: Cell) {
    && cell.availability !in FORBIDDEN && cell.endpoint !in FORBIDDEN
    && cell.implementation !in FORBIDDEN && cell.request !in FORBIDDEN
    && if cell.availability == "documented" then
         && cell.implementation in {disposition, "security-blocked"}
         && cell.request != NO_ROUTE && cell.endpoint != "none"
       else
         && cell.availability == "unavailable" && cell.implementation == "not-applicable"
         && cell.request == NO_ROUTE && cell.endpoint == "none"
  }

  /** Every allowed state has a cell, and the validator accepts it. */
  lemma {:induction false} AllowedCell(disposition: string, state: State)
    requires state in ALLOWED && disposition in ALLOWED_DISPOSITIONS
    ensures CellFor(disposition, state).Some?
    ensures CellOk(disposition, CellFor(disposition, state).value)
    ensures CellFor(disposition, state).value.availability == "documented" <==> state.availability != "unavailable"
  {
  }

  // ----- Counting

  function Get(counts: map<string, nat>, name: string): nat {
    if name in counts then counts[name] else 0
  }

  function Bump(counts: map<string, nat>, name: string): map<string, nat> {
    counts[name := Get(counts, name) + 1]
  }

  /** Availabilities and implementations are counted in one dictionary. */
  function Counted(counts: map<string, nat>, cell: Cell): map<string, nat> {
    Bump(if cell.availability == "unavailable" then counts else Bump(counts, cell.implementation), cell.availability)
  }

  function Available(cells: seq<Cell>, availability: string): nat {
    if cells == [] then 0
    else
      Available(cells[..|cells| - 1], availability)
        + (if cells[|cells| - 1].availability == availability then 1 else 0)
  }

  function Implemented(cells: seq<Cell>, name: string): nat {
    if cells == [] then 0
    else Implemented(cells[..|cells| - 1], name) + (if cells[|cells| - 1].implementation == name then 1 else 0)
  }

  /** What the dictionary holds, under each name the summary reads. */
  ghost predicate Tallied(counts: map<string, nat>, cells: seq<Cell>) {
    && Get(counts, "documented") == Available(cells, "documented")
    && Get(counts, "unavailable") == Available(cells, "unavailable")
    && (forall name :: name in ALLOWED_DISPOSITIONS ==> Get(counts, name) == Implemented(cells, name))
  }

  ghost predicate CellsOk(rows: seq<Row>, cells: seq<Cell>) {
    |cells| == |rows| && forall k :: 0 <= k < |cells| ==> CellOk(rows[k].disposition, cells[k])
  }

  function SummaryOf(cells: seq<Cell>): Summary {
    Summary(FULL, Available(cells, "documented"), Implemented(cells, "security-blocked"),
            Implemented(cells, "typed"), Implemented(cells, "typed-gated"), Available(cells, "unavailable"))
  }

  /** Sharing one dictionary mixes nothing up. */
  lemma {:induction false} TallyStep(counts: map<string, nat>, cells: seq<Cell>, cell: Cell, disposition: string)
    requires Tallied(counts, cells) && CellOk(disposition, cell) && disposition in ALLOWED_DISPOSITIONS
    ensures Tallied(Counted(counts, cell), cells + [cell])
  {
    assert (cells + [cell])[..|cells|] == cells;
    assert "documented" !in ALLOWED_DISPOSITIONS && "unavailable" !in ALLOWED_DISPOSITIONS;
    assert "not-applicable" !in ALLOWED_DISPOSITIONS;
    hide FORBIDDEN, NO_ROUTE;
  }

  /** Every route is either available or not, and every available one is explained. */
  lemma {:induction false} Balanced(rows: seq<Row>, cells: seq<Cell>)
    requires CellsOk(rows, cells)
    requires forall k :: 0 <= k < |rows| ==> rows[k].disposition in ALLOWED_DISPOSITIONS
    ensures Available(cells, "documented")
         == Implemented(cells, "typed") + Implemented(cells, "typed-gated") + Implemented(cells, "security-blocked")
    ensures Available(cells, "documented") + Available(cells, "unavailable") == |cells|
  {
    if cells != [] {
      var last := |cells| - 1;
      Balanced(rows[..last], cells[..last]);
      LastCell(rows[last].disposition, cells[last]);
      hide CellOk;
    }
  }

  lemma {:induction false} LastCell(disposition: string, cell: Cell)
    requires CellOk(disposition, cell) && disposition in ALLOWED_DISPOSITIONS
    ensures cell.availability == "documented" <==> cell.implementation in ALLOWED_DISPOSITIONS
    ensures cell.availability == "documented" || cell.availability == "unavailable"
  {
    assert "not-applicable" !in ALLOWED_DISPOSITIONS;
    assert "documented" != "unavailable";
  }

  // ----- Building

  lemma {:induction false} AcceptedKnown(versions: seq<Version>, items: seq<Item<State>>, start: nat,
                                         previous: Option<State>)
    requires AcceptedFrom(versions, items, start, previous)
    ensures forall item :: item in items ==> Known(versions, item)
  {
    if items != [] {
      AcceptedKnown(versions, items[1..], IndexOf(versions, items[0].maximum).value + 1, Some(items[0].value));
    }
  }

  /** The state of an operation of a validated registry at a release. */
  function StateAt(op: Operation, version: Version): State {
    var state := Lookup(op.ranges, version);
    if state.Some? then state.value else State("unavailable", "none")
  }

  lemma {:induction false} StateAllowed(versions: seq<Version>, op: Operation, version: Version)
    requires Ascending(versions) && Accepted(versions, op.ranges) && version in versions
    ensures Lookup(op.ranges, version) == Some(StateAt(op, version)) && StateAt(op, version) in ALLOWED
  {
    AcceptedLookup(versions, op.ranges, version);
  }

  function CellAt(op: Operation, version: Version): Cell {
    var cell := CellFor(op.disposition, StateAt(op, version));
    if cell.Some? then cell.value else Cell("", "", "", "")
  }

  /** One turn of the inner loop. In a validated registry none of its three refusals fires. */
  method BuildCell(versions: seq<Version>, op: Operation, version: Version) returns (r: Option<Cell>)
    requires Ascending(versions) && Accepted(versions, op.ranges) && op.disposition in ALLOWED_DISPOSITIONS
    requires version in versions
    ensures r == Some(CellAt(op, version)) && CellOk(op.disposition, r.value)
    ensures r.value.availability == "documented" <==> StateAt(op, version).availability != "unavailable"
  {
    hide CellFor, CellOk, Accepted, Ascending;
    StateAllowed(versions, op, version);
    AllowedCell(op.disposition, StateAt(op, version));
    Bounds(versions, op);
    var state := StateFor(versions, op.ranges, version);
    if state.None? {
      return None;
    }
    r := CellFor(op.disposition, state.value);
  }

  lemma {:induction false} Bounds(versions: seq<Version>, op: Operation)
    requires Accepted(versions, op.ranges)
    ensures forall item :: item in op.ranges ==> Known(versions, item)
  {
    AcceptedKnown(versions, op.ranges, 0, None);
  }

  function Rows(ops: seq<Operation>): seq<Row> {
    seq(|ops|, k requires 0 <= k < |ops| => Row(ops[k].id, ops[k].route, ops[k].disposition))
  }

  function CellsAt(ops: seq<Operation>, version: Version): seq<Cell> {
    seq(|ops|, k requires 0 <= k < |ops| => CellAt(ops[k], version))
  }

  ghost predicate Offered(ops: seq<Operation>, version: Version) {
    exists k :: 0 <= k < |ops| && StateAt(ops[k], version).availability != "unavailable"
  }

  ghost predicate OpsOk(versions: seq<Version>, ops: seq<Operation>) {
    forall k :: 0 <= k < |ops| ==> Accepted(versions, ops[k].ranges) && ops[k].disposition in ALLOWED_DISPOSITIONS
  }

  lemma {:induction false} SomeAvailable(cells: seq<Cell>)
    ensures Available(cells, "documented") > 0
        <==> exists k :: 0 <= k < |cells| && cells[k].availability == "documented"
  {
    if cells != [] {
      var last := |cells| - 1;
      SomeAvailable(cells[..last]);
      assert forall k :: 0 <= k < last ==> cells[..last][k] == cells[k];
    }
  }

  /** The cells of one release and their counts. */
  method BuildCells(versions: seq<Version>, ops: seq<Operation>, version: Version)
    returns (cells: seq<Cell>, counts: map<string, nat>, available: nat)
    requires Ascending(versions) && OpsOk(versions, ops) && version in versions
    ensures cells == CellsAt(ops, version) && CellsOk(Rows(ops), cells)
    ensures Tallied(counts, cells) && available == Available(cells, "documented")
    ensures available > 0 <==> Offered(ops, version)
  {
    hide CellAt, CellOk, Tallied, Accepted, Ascending, Available, StateAt, Counted;
    var k := 0;
    cells, counts, available := [], map[], 0;
    NothingCounted();
    while k < |ops|
      invariant 0 <= k <= |ops| && |cells| == k
      invariant forall j :: 0 <= j < k ==> cells[j] == CellAt(ops[j], version) && CellOk(ops[j].disposition, cells[j])
      invariant forall j :: 0 <= j < k ==>
                  (cells[j].availability == "documented" <==> StateAt(ops[j], version).availability != "unavailable")
      invariant Tallied(counts, cells) && available == Available(cells, "documented")
    {
      var cell := BuildCell(versions, ops[k], version);
      TallyStep(counts, cells, cell.value, ops[k].disposition);
      AvailableSnoc(cells, cell.value, "documented");
      counts := Counted(counts, cell.value);
      if cell.value.availability == "documented" {
        available := available + 1;
      }
      cells := cells + [cell.value];
      k := k + 1;
    }
    SomeAvailable(cells);
  }

  lemma {:induction false} NothingCounted()
    ensures Tallied(map[], []) && Available([], "documented") == 0
  {
  }

  lemma {:induction false} AvailableSnoc(cells: seq<Cell>, cell: Cell, name: string)
    ensures Available(cells + [cell], name) == Available(cells, name) + (if cell.availability == name then 1 else 0)
  {
    assert (cells + [cell])[..|cells|] == cells;
  }

  /** One release. Apart from the evidence gates only a release without any available
      operation is refused: the source divides its counts. The refusal of an unexplained operation never fires. */
  method BuildProfile(names: seq<string>, sources: Sources, versions: seq<Version>, ops: seq<Operation>,
                      version: Version)
    returns (r: Option<Profile>, available: nat)
    requires Ascending(versions) && OpsOk(versions, ops) && version in versions
    requires version in sources.core && version in sources.hashes
    ensures r.Some? <==> EvidenceOk(names, sources, version) && Offered(ops, version)
    ensures r.Some? ==> r.value == Profile(version, CellsAt(ops, version), SummaryOf(CellsAt(ops, version)),
                                           LiveOf(names, version), sources.hashes[version].value)
    ensures CellsOk(Rows(ops), CellsAt(ops, version)) && available == Available(CellsAt(ops, version), "documented")
  {
    hide CellAt, CellsOk, Accepted, Ascending, Available, Implemented, FlowsWith, LiveOf;
    var cells, counts;
    cells, counts, available := BuildCells(versions, ops, version);
    if !EvidenceOk(names, sources, version) {
      return None, available;
    }
    var core := sources.core[version];
    Balanced(Rows(ops), cells);
    var documented := Get(counts, "documented");
    var resolved := Get(counts, "typed") + Get(counts, "typed-gated") + Get(counts, "security-blocked");
    if documented != resolved {
      assert false;
      return None, available;
    }
    var coverage := PercentBasisPoints(resolved, documented);
    if coverage.None? {
      return None, available;
    }
    r := Some(Profile(version, cells,
                      Summary(coverage.value, documented, Get(counts, "security-blocked"), Get(counts, "typed"),
                              Get(counts, "typed-gated"), Get(counts, "unavailable")),
                      Live(FlowsWith(core.flows, "passed"), FlowsWith(core.flows, "skipped")),
                      sources.hashes[version].value));
  }

  // ----- The whole matrix

  function DocumentedCells(profiles: seq<Profile>): nat {
    if profiles == [] then 0
    else DocumentedCells(profiles[..|profiles| - 1]) + Available(profiles[|profiles| - 1].cells, "documented")
  }

  function TotalsOf(operations: seq<Row>, profiles: seq<Profile>): Totals {
    var documented := DocumentedCells(profiles);
    Totals(|operations| * |profiles|, FULL, documented, |operations|, |profiles|, documented)
  }

  ghost predicate ProfileOk(names: seq<string>, rows: seq<Row>, profile: Profile) {
    && CellsOk(rows, profile.cells) && profile.summary == SummaryOf(profile.cells)
    && profile.live == LiveOf(names, profile.version) && HexDigest(profile.hash)
  }

  function RowIds(rows: seq<Row>): seq<string> {
    seq(|rows|, k requires 0 <= k < |rows| => rows[k].id)
  }

  function ProfileVersions(profiles: seq<Profile>): seq<Version> {
    seq(|profiles|, k requires 0 <= k < |profiles| => profiles[k].version)
  }

  ghost predicate RowsOk(rows: seq<Row>) {
    && StrictlySorted(RowIds(rows), StringLess)
    && forall k :: 0 <= k < |rows| ==> rows[k].disposition in ALLOWED_DISPOSITIONS
  }

  /** What `validate_matrix` accepts. */
  ghost predicate MatrixOk(names: seq<string>, m: Matrix, expected: seq<Version>) {
    && ProfileVersions(m.profiles) == expected && RowsOk(m.operations)
    && (forall k :: 0 <= k < |m.profiles| ==> ProfileOk(names, m.operations, m.profiles[k]))
    && m.totals == TotalsOf(m.operations, m.profiles)
  }

  /** In every matrix the validator accepts, built or not, the counts explain every cell. */
  lemma {:induction false} AcceptedBalanced(names: seq<string>, m: Matrix, expected: seq<Version>, k: nat)
    requires MatrixOk(names, m, expected) && k < |m.profiles|
    ensures var s := m.profiles[k].summary;
            && s.documented == s.typed + s.gated + s.blocked
            && s.documented + s.unavailable == |m.operations|
  {
    assert ProfileOk(names, m.operations, m.profiles[k]);
    Balanced(m.operations, m.profiles[k].cells);
  }

  method ValidateCells(rows: seq<Row>, cells: seq<Cell>) returns (ok: bool, counts: map<string, nat>, documented: nat)
    requires forall k :: 0 <= k < |rows| ==> rows[k].disposition in ALLOWED_DISPOSITIONS
    ensures ok <==> CellsOk(rows, cells)
    ensures ok ==> Tallied(counts, cells) && documented == Available(cells, "documented")
  {
    hide CellOk, Tallied, Available, Counted;
    counts, documented := map[], 0;
    if |cells| != |rows| {
      return false, counts, documented;
    }
    NothingCounted();
    var k := 0;
    assert cells[..0] == [];
    while k < |cells|
      invariant 0 <= k <= |cells| && CellsOk(rows[..k], cells[..k])
      invariant Tallied(counts, cells[..k]) && documented == Available(cells[..k], "documented")
    {
      if !CellOk(rows[k].disposition, cells[k]) {
        return false, counts, documented;
      }
      TallyStep(counts, cells[..k], cells[k], rows[k].disposition);
      AvailableSnoc(cells[..k], cells[k], "documented");
      assert cells[..k + 1] == cells[..k] + [cells[k]];
      counts := Counted(counts, cells[k]);
      if cells[k].availability == "documented" {
        documented := documented + 1;
      }
      k := k + 1;
    }
    assert cells[..k] == cells && rows[..k] == rows;
    ok := true;
  }

  method ValidateProfile(names: seq<string>, rows: seq<Row>, profile: Profile) returns (ok: bool, documented: nat)
    requires forall k :: 0 <= k < |rows| ==> rows[k].disposition in ALLOWED_DISPOSITIONS
    ensures ok <==> ProfileOk(names, rows, profile)
    ensures ok ==> documented == Available(profile.cells, "documented")
  {
    hide CellsOk, Available, Implemented;
    var counts;
    ok, counts, documented := ValidateCells(rows, profile.cells);
    if ok {
      ok := profile.live == LiveOf(names, profile.version) && HexDigest(profile.hash)
            && profile.summary == Summary(FULL, Get(counts, "documented"), Get(counts, "security-blocked"),
                                          Get(counts, "typed"), Get(counts, "typed-gated"), Get(counts, "unavailable"));
    }
  }

  method ValidateRows(rows: seq<Row>) returns (ok: bool)
    ensures ok <==> RowsOk(rows)
  {
    hide StringLess, StrictlySorted, SortedSet, StrictTotal;
    StringOrder();
    OwnSort(RowIds(rows), StringLess);
    if RowIds(rows) != SortedSet(RowIds(rows), StringLess) {
      return false;
    }
    ok := forall k :: 0 <= k < |rows| ==> rows[k].disposition in ALLOWED_DISPOSITIONS;
  }

  /** `validate_matrix` */
  method ValidateMatrix(names: seq<string>, m: Matrix, expected: seq<Version>) returns (ok: bool)
    ensures ok <==> MatrixOk(names, m, expected)
  {
    hide ProfileOk, DocumentedCells, Available;
    if ProfileVersions(m.profiles) != expected {
      return false;
    }
    var rows := ValidateRows(m.operations);
    if !rows {
      return false;
    }
    var documented, resolved, k := 0, 0, 0;
    DocumentedNone();
    assert m.profiles[..0] == [];
    while k < |m.profiles|
      invariant 0 <= k <= |m.profiles| && documented == resolved == DocumentedCells(m.profiles[..k])
      invariant forall j :: 0 <= j < k ==> ProfileOk(names, m.operations, m.profiles[j])
    {
      var fine, more := ValidateProfile(names, m.operations, m.profiles[k]);
      if !fine {
        return false;
      }
      DocumentedSnoc(m.profiles, k);
      documented, resolved, k := documented + more, resolved + more, k + 1;
    }
    assert m.profiles[..k] == m.profiles;
    ok := m.totals == Totals(|m.operations| * |m.profiles|, FULL, documented, |m.operations|, |m.profiles|, resolved);
  }

  lemma {:induction false} DocumentedNone()
    ensures DocumentedCells([]) == 0
  {
  }

  lemma {:induction false} DocumentedSnoc(profiles: seq<Profile>, k: nat)
    requires k < |profiles|
    ensures DocumentedCells(profiles[..k + 1])
         == DocumentedCells(profiles[..k]) + Available(profiles[k].cells, "documented")
  {
    assert profiles[..k + 1][..k] == profiles[..k];
  }

  /** The profile that `build_matrix` gives a release. */
  function ProfileAt(names: seq<string>, sources: Sources, ops: seq<Operation>, version: Version): Profile
    requires version in sources.hashes
  {
    var hash := sources.hashes[version];
    Profile(version, CellsAt(ops, version), SummaryOf(CellsAt(ops, version)), LiveOf(names, version),
            if hash.Some? then hash.value else "")
  }

  /** The loop over the releases. */
  method BuildProfiles(names: seq<string>, sources: Sources, versions: seq<Version>, ops: seq<Operation>)
    returns (ok: bool, profiles: seq<Profile>, documented: nat)
    requires Ascending(versions) && OpsOk(versions, ops) && SourcesCover(sources, versions)
    ensures ok <==> forall k :: 0 <= k < |versions| ==>
              EvidenceOk(names, sources, versions[k]) && Offered(ops, versions[k])
    ensures ok ==> |profiles| == |versions| && documented == DocumentedCells(profiles)
    ensures ok ==> forall k :: 0 <= k < |versions| ==>
              && sources.hashes[versions[k]].Some? && profiles[k] == ProfileAt(names, sources, ops, versions[k])
              && CellsOk(Rows(ops), profiles[k].cells)
  {
    hide Accepted, Ascending, CellsOk, CellsAt, Available, DocumentedCells, SummaryOf, EvidenceOk, LiveOf, Offered;
    profiles, documented := [], 0;
    var k := 0;
    DocumentedNone();
    while k < |versions|
      invariant 0 <= k <= |versions| && |profiles| == k && documented == DocumentedCells(profiles)
      invariant forall j :: 0 <= j < k ==> EvidenceOk(names, sources, versions[j]) && Offered(ops, versions[j])
      invariant forall j :: 0 <= j < k ==>
                  && sources.hashes[versions[j]].Some? && profiles[j] == ProfileAt(names, sources, ops, versions[j])
                  && CellsOk(Rows(ops), profiles[j].cells)
    {
      assert versions[k] in ToSet(versions);
      var profile, available := BuildProfile(names, sources, versions, ops, versions[k]);
      if profile.None? {
        return false, profiles, documented;
      }
      EvidenceHash(names, sources, versions[k]);
      ghost var more := profiles + [profile.value];
      assert more[..k] == profiles && more[..k + 1] == more;
      DocumentedSnoc(more, k);
      profiles, documented, k := profiles + [profile.value], documented + available, k + 1;
    }
    ok := true;
  }

  /** `build_matrix` on a validated registry. It succeeds exactly when the evidence covers
      and passes every release, every fixture hash is a digest and every release offers an
      operation; its cells are those of the registry's states and its own validator accepts
      them. */
  method BuildMatrix(names: seq<string>, sources: Sources, registry: Registry) returns (r: Option<Matrix>)
    requires Validated(registry)
    ensures r.Some? <==>
      (SourcesCover(sources, registry.versions)
       && forall version :: version in registry.versions ==>
            EvidenceOk(names, sources, version) && HexDigest(sources.hashes[version].value)
            && Offered(registry.operations, version))
    ensures r.Some? ==> MatrixOk(names, r.value, registry.versions) && r.value.operations == Rows(registry.operations)
    ensures r.Some? ==> forall k :: 0 <= k < |registry.versions| ==>
              r.value.profiles[k].cells == CellsAt(registry.operations, registry.versions[k])
  {
    hide Accepted, Ascending, CellsOk, CellsAt, Available, DocumentedCells, SummaryOf, StringLess, StrictlySorted,
         StateAt, EvidenceOk, LiveOf, HexDigest, Offered, MatrixOk, RowsOk;
    var versions, ops := registry.versions, registry.operations;
    if sources.core.Keys != ToSet(versions) || sources.hashes.Keys != ToSet(versions) {
      return None;
    }
    var ok, profiles, documented := BuildProfiles(names, sources, versions, ops);
    if !ok {
      return None;
    }
    OfferedSome(ops, versions[0]);
    var cells := |versions| * |ops|;
    var coverage := PercentBasisPoints(cells, cells);
    if coverage.None? {
      assert false;
      return None;
    }
    var m := Matrix(Rows(ops), profiles, Totals(cells, coverage.value, documented, |ops|, |versions|, documented));
    assert ProfileVersions(profiles) == versions;
    ValidRows(registry);
    DigestsDecide(names, m, versions);
    ok := ValidateMatrix(names, m, versions);
    r := if ok then Some(m) else None;
  }

  lemma {:induction false} ValidRows(registry: Registry)
    requires Validated(registry)
    ensures RowsOk(Rows(registry.operations))
  {
    hide StringLess, Accepted;
    assert RowIds(Rows(registry.operations)) == Ids(registry.operations);
  }

  lemma {:induction false} EvidenceHash(names: seq<string>, sources: Sources, version: Version)
    requires version in sources.core && version in sources.hashes && EvidenceOk(names, sources, version)
    ensures sources.hashes[version].Some?
  {
  }

  lemma {:induction false} OfferedSome(ops: seq<Operation>, version: Version)
    requires Offered(ops, version)
    ensures ops != []
  {
  }

  /** A matrix whose other parts are right is accepted exactly when its hashes are digests. */
  lemma {:induction false} DigestsDecide(names: seq<string>, m: Matrix, expected: seq<Version>)
    requires ProfileVersions(m.profiles) == expected && RowsOk(m.operations)
    requires m.totals == TotalsOf(m.operations, m.profiles)
    requires forall k :: 0 <= k < |m.profiles| ==>
               && CellsOk(m.operations, m.profiles[k].cells) && m.profiles[k].summary == SummaryOf(m.profiles[k].cells)
               && m.profiles[k].live == LiveOf(names, m.profiles[k].version)
    ensures MatrixOk(names, m, expected) <==> forall k :: 0 <= k < |m.profiles| ==> HexDigest(m.profiles[k].hash)
  {
    hide CellsOk, SummaryOf, LiveOf, HexDigest, RowsOk, TotalsOf, ProfileVersions;
    if MatrixOk(names, m, expected) {
      forall k | 0 <= k < |m.profiles| ensures HexDigest(m.profiles[k].hash) {
        assert ProfileOk(names, m.operations, m.profiles[k]);
      }
    }
  }
}
