/** What lookups, state rules and patch steps answer, in terms of positions, numbers and
    literal texts (scripts/generate_openbao_capability_registry.py, state_for_version and
    build_registry, and the candidate generators). */
module RegistryMeaning {
  import opened Text
  import opened Versions
  import opened Ranges
  import opened Registries
  import opened Patches
  import opened MinorRelease
  import opened Merge

  // ----- Order and lookup

  function Numbers(v: Version): seq<nat> {
    [v.major, v.minor, v.patch]
  }

  /** At the first number in which they differ, `a` has the smaller one. */
  ghost predicate Earlier(a: Version, b: Version) {
    exists k :: 0 <= k < 3 && Numbers(a)[..k] == Numbers(b)[..k] && Numbers(a)[k] < Numbers(b)[k]
  }

  lemma {:induction false} LessIs(a: Version, b: Version)
    ensures Less(a, b) <==> Earlier(a, b)
  {
    var x, y := Numbers(a), Numbers(b);
    assert x[..0] == y[..0];
    assert a.major == b.major ==> x[..1] == y[..1];
    assert a.major == b.major && a.minor == b.minor ==> x[..2] == y[..2];
    if k :| 0 <= k < 3 && x[..k] == y[..k] && x[k] < y[k] {
      assert k > 0 ==> x[..k][0] == y[..k][0];
      assert k > 1 ==> x[..k][1] == y[..k][1];
    }
  }

  /** The release lies between the bounds of the item. */
  ghost predicate Holds<T>(item: Item<T>, v: Version) {
    !Earlier(v, item.minimum) && !Earlier(item.maximum, v)
  }

  lemma {:induction false} CoversIs<T>(item: Item<T>, v: Version)
    ensures Covers(item, v) <==> Holds(item, v)
  {
    LessIs(item.minimum, v);
    LessIs(v, item.minimum);
    LessIs(v, item.maximum);
    LessIs(item.maximum, v);
    hide Earlier;
  }

  /** `at` lists the positions of the items that hold the release. */
  ghost predicate Positions<T>(at: seq<nat>, items: seq<Item<T>>, v: Version) {
    && (forall n, m :: 0 <= n < m < |at| ==> at[n] < at[m])
    && (forall n :: 0 <= n < |at| ==> at[n] < |items| && Holds(items[at[n]], v))
    && (forall i: nat :: i < |items| && Holds(items[i], v) ==> i in at)
  }

  lemma {:induction false} MatchesAt<T>(items: seq<Item<T>>, v: Version) returns (at: seq<nat>)
    ensures Positions(at, items, v) && |at| == |Matches(items, v)|
    ensures forall n :: 0 <= n < |at| ==> at[n] < |items| && Matches(items, v)[n] == items[at[n]]
  {
    hide Holds, Covers;
    at := [];
    if items != [] {
      var n: nat := |items| - 1;
      FrontLast(items);
      MatchesPush(items[..n], items[n], v);
      CoversIs(items[n], v);
      at := MatchesAt(items[..n], v);
      hide Matches;
      forall i: nat | i < n && Holds(items[i], v) ensures i in at {
        assert items[..n][i] == items[i];
      }
      if Covers(items[n], v) {
        at := at + [n];
      }
    }
  }

  /** The first item that holds the release has this value. */
  ghost predicate FirstHas<T>(items: seq<Item<T>>, v: Version, value: T) {
    exists i: nat :: i < |items| && Holds(items[i], v) && items[i].value == value
                     && forall j: nat :: j < i ==> !Holds(items[j], v)
  }

  ghost predicate NoneHolds<T>(items: seq<Item<T>>, v: Version) {
    forall i: nat :: i < |items| ==> !Holds(items[i], v)
  }

  /** Exactly one item holds the release, and it has this value. */
  ghost predicate OnlyHas<T>(items: seq<Item<T>>, v: Version, value: T) {
    exists i: nat :: i < |items| && Holds(items[i], v) && items[i].value == value
                     && forall j: nat :: j < |items| && Holds(items[j], v) ==> j == i
  }

  lemma {:induction false} LookupIs<T>(items: seq<Item<T>>, v: Version)
    ensures Lookup(items, v).None? <==> NoneHolds(items, v)
    ensures forall value :: Lookup(items, v) == Some(value) <==> FirstHas(items, v, value)
  {
    var at := MatchesAt(items, v);
    hide Holds, Matches;
    if at != [] {
      assert Holds(items[at[0]], v);
      forall j: nat | j < at[0] ensures j !in at {}
    }
  }

  /** One match, found by the lookup. */
  lemma {:induction false} OnlyIs<T>(items: seq<Item<T>>, v: Version, value: T)
    ensures |Matches(items, v)| == 1 && Lookup(items, v) == Some(value) <==> OnlyHas(items, v, value)
  {
    var at := MatchesAt(items, v);
    hide Holds, Matches;
    if at != [] {
      assert Holds(items[at[0]], v);
      if |at| > 1 {
        assert Holds(items[at[1]], v) && at[0] != at[1];
      } else {
        forall j: nat | j < |items| && Holds(items[j], v) ensures j == at[0] {
          assert j in at;
        }
      }
    }
  }

  // ----- The rule for a route's state

  ghost predicate Documents(route: Route, release: Release, current: set<Route>) {
    route in release.tagged || route in release.openapi || (release.version == Version(2, 5, 5) && route in current)
  }

  /** The state of a route: unavailable when nothing documents it; otherwise blocked or
      documented as the block table says, with the strongest evidence there is. */
  ghost predicate RuleGives(route: Route, release: Release, current: set<Route>, blocked: set<(Route, Version)>,
                            state: State) {
    if Documents(route, release, current) then
      && state.availability == (if (route, release.version) in blocked then "security-blocked" else "documented")
      && state.evidence == (if route in release.tagged then "tagged-documentation"
                            else if route in release.openapi then "locked-openapi"
                            else "corrected-2.5.5-contract")
    else
      (route, release.version) !in blocked && state.availability == "unavailable" && state.evidence == "none"
  }

  lemma {:induction false} RuleMeans(route: Route, release: Release, current: set<Route>,
                                     blocked: set<(Route, Version)>, state: State)
    ensures RuleState(route, release, current, blocked) == Some(state)
        <==> RuleGives(route, release, current, blocked, state)
  {
  }

  lemma {:induction false} RuleRefuses(route: Route, release: Release, current: set<Route>,
                                       blocked: set<(Route, Version)>)
    ensures RuleState(route, release, current, blocked).None?
        <==> (route, release.version) in blocked && !Documents(route, release, current)
  {
  }

  /** The release lies in exactly one range, and that has the rule's state. */
  ghost predicate RuleFound(ranges: seq<Item<State>>, route: Route, release: Release, current: set<Route>,
                            blocked: set<(Route, Version)>) {
    exists state :: RuleGives(route, release, current, blocked, state) && OnlyHas(ranges, release.version, state)
  }

  /** The ranges `build_registry` writes for one route: refused exactly for a block on a
      route that is not documented; otherwise every release lies in exactly one range, whose
      state is the rule's. */
  method BuildRouteRanges(route: Route, releases: seq<Release>, current: set<Route>, blocked: set<(Route, Version)>)
    returns (r: Option<seq<Item<State>>>)
    requires Ascending(ReleaseVersions(releases))
    ensures r.Some? <==> releases != [] && forall i :: 0 <= i < |releases| ==>
              (route, releases[i].version) in blocked ==> Documents(route, releases[i], current)
    ensures r.Some? ==> forall i :: 0 <= i < |releases| ==>
              RuleFound(r.value, route, releases[i], current, blocked)
  {
    r := BuildRanges(route, releases, current, blocked);
    forall i | 0 <= i < |releases|
      ensures RuleState(route, releases[i], current, blocked).None?
          <==> (route, releases[i].version) in blocked && !Documents(route, releases[i], current)
    {
      RuleRefuses(route, releases[i], current, blocked);
    }
    hide RuleState, RuleGives, OnlyHas, Matches, Lookup, Accepted, Documents;
    if r.Some? {
      forall i | 0 <= i < |releases|
        ensures RuleFound(r.value, route, releases[i], current, blocked)
      {
        var state := RuleState(route, releases[i], current, blocked).value;
        RuleMeans(route, releases[i], current, blocked, state);
        OnlyIs(r.value, releases[i].version, state);
        assert OnlyHas(r.value, releases[i].version, state);
      }
    }
  }

  // ----- Inserting a patch

  /** One item holds the predecessor; it ends there (and begins there, if strict). The last
      item begins at the last release, and none holds the new one. */
  ghost predicate Insertable(ranges: seq<Item<State>>, prior: Version, v: Version, last: Version, strict: bool) {
    && (exists i: nat :: i < |ranges| && Holds(ranges[i], prior) && ranges[i].maximum == prior
          && (strict ==> ranges[i].minimum == prior)
          && forall j: nat :: j < |ranges| && Holds(ranges[j], prior) ==> j == i)
    && ranges != [] && ranges[|ranges| - 1].minimum == last
    && NoneHolds(ranges, v)
  }

  lemma {:induction false} InsertableIs(ranges: seq<Item<State>>, prior: Version, v: Version, last: Version,
                                        strict: bool)
    ensures InsertOk(ranges, prior, v, last, strict) <==> Insertable(ranges, prior, v, last, strict)
  {
    var at := MatchesAt(ranges, prior);
    LookupIs(ranges, v);
    hide Holds, Matches, NoneHolds;
    if at != [] {
      assert Holds(ranges[at[0]], prior);
    }
    if |at| > 1 {
      assert Holds(ranges[at[1]], prior) && at[0] != at[1];
    }
  }

  /** Neither release has a variant, or one and the same item alone holds both. */
  ghost predicate SameRoute(variants: seq<Item<string>>, prior: Version, v: Version) {
    || (NoneHolds(variants, prior) && NoneHolds(variants, v))
    || exists i: nat :: BothHold(variants, prior, v, i)
  }

  ghost predicate BothHold(variants: seq<Item<string>>, prior: Version, v: Version, i: nat) {
    && i < |variants| && Holds(variants[i], prior) && Holds(variants[i], v)
    && forall j: nat :: j < |variants| && (Holds(variants[j], prior) || Holds(variants[j], v)) ==> j == i
  }

  lemma {:induction false} SameRouteIs(endpoint: Endpoint, prior: Version, v: Version)
    ensures EndpointOk(endpoint, prior, v) <==> SameRoute(endpoint.variants, prior, v)
  {
    var items := endpoint.variants;
    var at := MatchesAt(items, prior);
    var to := MatchesAt(items, v);
    hide Holds, Matches, Covers;
    assert at != [] ==> Holds(items[at[0]], prior);
    assert to != [] ==> Holds(items[to[0]], v);
    if EndpointOk(endpoint, prior, v) && at != [] {
      assert items[at[0]] == items[to[0]];
      assert Holds(items[at[0]], prior) && Holds(items[at[0]], v);
      assert at[0] in to && |to| == 1;
      forall j: nat | j < |items| && (Holds(items[j], prior) || Holds(items[j], v)) ensures j == at[0] {
        assert j in at || j in to;
      }
      assert BothHold(items, prior, v, at[0]);
    }
    if i: nat :| BothHold(items, prior, v, i) {
      OneEntry(at, i);
      OneEntry(to, i);
    }
  }

  /** The grown ranges give the new release its predecessor's state alone, and no other
      release anything else than before. */
  ghost predicate Grown<T(!new)>(before: seq<Item<T>>, after: seq<Item<T>>, prior: Version, v: Version) {
    && (exists value :: OnlyHas(before, prior, value) && OnlyHas(after, v, value))
    && forall u, value :: u != v ==>
         && (FirstHas(before, u, value) <==> FirstHas(after, u, value))
         && (OnlyHas(before, u, value) <==> OnlyHas(after, u, value))
  }

  lemma {:induction false} GrownIs<T(!new)>(before: seq<Item<T>>, after: seq<Item<T>>, prior: Version, v: Version)
    requires InsertedItems(before, after, prior, v)
    ensures Grown(before, after, prior, v)
  {
    var value := Matches(before, prior)[0].value;
    OnlyIs(before, prior, value);
    OnlyIs(after, v, value);
    hide Matches, FirstHas, OnlyHas;
    assert OnlyHas(before, prior, value) && OnlyHas(after, v, value);
    forall u, value | u != v
      ensures FirstHas(before, u, value) <==> FirstHas(after, u, value)
      ensures OnlyHas(before, u, value) <==> OnlyHas(after, u, value)
    {
      SameHas(before, after, u, value);
    }
  }

  lemma {:induction false} SameHas<T(!new)>(before: seq<Item<T>>, after: seq<Item<T>>, u: Version, value: T)
    requires Matches(before, u) == Matches(after, u)
    ensures FirstHas(before, u, value) <==> FirstHas(after, u, value)
    ensures OnlyHas(before, u, value) <==> OnlyHas(after, u, value)
  {
    hide Matches, FirstHas, OnlyHas;
    LookupIs(before, u);
    LookupIs(after, u);
    OnlyIs(before, u, value);
    OnlyIs(after, u, value);
  }

  /** `build` of the 2.6.4 and 2.6.5 steps. */
  method GrowByInsertion(parent: Registry, prior: Version, v: Version, last: Version, strict: bool)
    returns (r: Option<Registry>, counts: map<string, nat>)
    requires Less(prior, v) && Less(v, last)
    ensures r.Some? <==>
              && |parent.versions| >= 2 && parent.versions[|parent.versions| - 2..] == [prior, last]
              && (forall i :: 0 <= i < |parent.operations| ==>
                    Insertable(parent.operations[i].ranges, prior, v, last, strict))
              && forall i :: 0 <= i < |parent.endpoints| ==> SameRoute(parent.endpoints[i].variants, prior, v)
    ensures r.Some? ==>
              && r.value.versions == parent.versions[..|parent.versions| - 2] + [prior, v, last]
              && r.value.endpoints == parent.endpoints && |r.value.operations| == |parent.operations|
    ensures r.Some? ==> forall i :: 0 <= i < |parent.operations| ==>
              && r.value.operations[i] == parent.operations[i].(ranges := r.value.operations[i].ranges)
              && Grown(parent.operations[i].ranges, r.value.operations[i].ranges, prior, v)
    ensures r.Some? ==> forall name :: Got(counts, name) == |InState(r.value.operations, v, name)|
  {
    hide InsertOk, Grown, InsertedItems, Insertable, Holds, Matches, KeepsHistory, InheritsAll, WellFormed, Less,
         EndpointOk, SameRoute, InState;
    r, counts := InsertPatch(parent, prior, v, last, strict);
    forall i | 0 <= i < |parent.operations|
      ensures InsertOk(parent.operations[i].ranges, prior, v, last, strict)
          <==> Insertable(parent.operations[i].ranges, prior, v, last, strict)
    {
      InsertableIs(parent.operations[i].ranges, prior, v, last, strict);
    }
    forall i | 0 <= i < |parent.endpoints|
      ensures EndpointOk(parent.endpoints[i], prior, v) <==> SameRoute(parent.endpoints[i].variants, prior, v)
    {
      SameRouteIs(parent.endpoints[i], prior, v);
    }
    if r.Some? {
      forall i | 0 <= i < |parent.operations|
        ensures r.value.operations[i] == parent.operations[i].(ranges := r.value.operations[i].ranges)
        ensures Grown(parent.operations[i].ranges, r.value.operations[i].ranges, prior, v)
      {
        assert Inserted(parent.operations[i], r.value.operations[i], prior, v);
        GrownIs(parent.operations[i].ranges, r.value.operations[i].ranges, prior, v);
      }
      forall name ensures Got(counts, name) == |InState(r.value.operations, v, name)| {
        CountIs(r.value.operations, v, name);
      }
    }
  }

  function Got(counts: map<string, nat>, name: string): nat {
    if name in counts then counts[name] else 0
  }

  /** The item that decides gives this availability. */
  ghost predicate HasState(ranges: seq<Item<State>>, v: Version, availability: string) {
    exists evidence :: FirstHas(ranges, v, State(availability, evidence))
  }

  /** The operations with this availability at the release. */
  ghost function InState(operations: seq<Operation>, v: Version, availability: string): set<nat> {
    set i: nat | i < |operations| && HasState(operations[i].ranges, v, availability)
  }

  lemma {:induction false} HasStateIs(ranges: seq<Item<State>>, v: Version, availability: string)
    ensures HasState(ranges, v, availability)
        <==> Lookup(ranges, v).Some? && Lookup(ranges, v).value.availability == availability
  {
    LookupIs(ranges, v);
    hide Lookup, FirstHas;
    if Lookup(ranges, v).Some? {
      assert FirstHas(ranges, v, Lookup(ranges, v).value);
    }
  }

  lemma {:induction false} CountIs(operations: seq<Operation>, v: Version, availability: string)
    ensures CountState(operations, v, availability) == |InState(operations, v, availability)|
  {
    hide HasState, Lookup;
    if operations != [] {
      var n := |operations| - 1;
      CountIs(operations[..n], v, availability);
      HasStateIs(operations[n].ranges, v, availability);
      var before, all := InState(operations[..n], v, availability), InState(operations, v, availability);
      assert all == before + (if HasState(operations[n].ranges, v, availability) then {n} else {});
    } else {
      assert InState(operations, v, availability) == {};
    }
  }

  // ----- Appending a patch

  /** One item more, for the new release alone, with the value of the last one. */
  ghost predicate Lengthened<T>(before: seq<Item<T>>, after: seq<Item<T>>, last: Version, v: Version) {
    var n := |before| - 1;
    && n >= 0 && before[n].maximum == last && |after| == n + 2
    && (forall k :: 0 <= k <= n ==> after[k] == before[k])
    && after[n + 1].minimum == v && after[n + 1].maximum == v && after[n + 1].value == before[n].value
  }

  /** `build` of the 2.7.1 step (`pointVariants` false) and of the 2.7.2 step (true). */
  method GrowByAppending(parent: Registry, last: Version, v: Version, pointVariants: bool)
    returns (r: Option<Registry>)
    ensures r.Some? <==>
              && (forall i :: 0 <= i < |parent.operations| ==>
                    var ranges := parent.operations[i].ranges;
                    ranges != [] && ranges[|ranges| - 1].minimum == ranges[|ranges| - 1].maximum == last)
              && forall i :: 0 <= i < |parent.endpoints| ==>
                   var variants := parent.endpoints[i].variants;
                   && variants != [] && variants[|variants| - 1].maximum == last
                   && (pointVariants ==> variants[|variants| - 1].minimum == last)
    ensures r.Some? ==>
              && r.value.versions == parent.versions + [v]
              && |r.value.operations| == |parent.operations| && |r.value.endpoints| == |parent.endpoints|
    ensures r.Some? ==> forall i :: 0 <= i < |parent.operations| ==>
              && r.value.operations[i] == parent.operations[i].(ranges := r.value.operations[i].ranges)
              && Lengthened(parent.operations[i].ranges, r.value.operations[i].ranges, last, v)
    ensures r.Some? ==> forall i :: 0 <= i < |parent.endpoints| ==>
              && r.value.endpoints[i] == parent.endpoints[i].(variants := r.value.endpoints[i].variants)
              && Lengthened(parent.endpoints[i].variants, r.value.endpoints[i].variants, last, v)
  {
    hide OperationAppended, EndpointAppended, KeepsHistory, InheritsAll, WellFormed, Less;
    r := AppendPatch(parent, last, v, pointVariants);
  }

  // ----- The minor release

  predicate Outside(path: string) {
    || StartsWith(path, "/auth/ldap/") || StartsWith(path, "/auth/kerberos/") || StartsWith(path, "/auth/radius/")
    || StartsWith(path, "/ldap/")
  }

  /** The state at the new release: unavailable outside the supported prefixes and without
      documentation, blocked where the disposition is, and otherwise documented, by the tagged
      text unless the route exists at run time only or the text does not have it. */
  ghost predicate MinorGives(route: Route, disposition: string, e: Evidence, state: State) {
    if Outside(route.path) || route !in e.documented then state == State("unavailable", "none")
    else if disposition == "security-blocked" then state == State("security-blocked", "tagged-documentation")
    else if route in e.tagged && route !in e.runtime then state == State("documented", "tagged-documentation")
    else state == State("documented", "locked-openapi")
  }

  lemma {:induction false} OutsideIs(path: string)
    ensures Excluded(path) <==> Outside(path)
  {
    var prefixes := EXCLUDED_PREFIXES;
    assert prefixes[0] == "/auth/ldap/" && prefixes[1] == "/auth/kerberos/";
    assert prefixes[2] == "/auth/radius/" && prefixes[3] == "/ldap/";
    hide StartsWith;
  }

  lemma {:induction false} MinorMeans(route: Route, disposition: string, e: Evidence, state: State)
    ensures MinorState(route, disposition, e) == state <==> MinorGives(route, disposition, e, state)
  {
    OutsideIs(route.path);
    hide Excluded, Outside;
  }

  /** An operation that gains one range, for the new release alone. */
  ghost predicate Gains(before: Operation, after: Operation, v: Version, e: Evidence) {
    exists state :: MinorGives(before.route, before.disposition, e, state)
                    && after == before.(ranges := before.ranges + [Item(v, v, state)])
  }

  /** An operation for a route that exists at run time from the new release on. */
  ghost predicate Fresh(operation: Operation, versions: seq<Version>, v: Version, e: Evidence, name: Route -> string)
    requires versions != []
  {
    && operation.route in e.runtime && operation.id == name(operation.route)
    && operation.disposition == "typed-gated"
    && exists state :: MinorGives(operation.route, "typed-gated", e, state)
         && operation.ranges == [Item(versions[0], versions[|versions| - 1], State("unavailable", "none")),
                                 Item(v, v, state)]
  }

  /** The last variant reaches the new release; everything else stays. */
  ghost predicate Stretched(before: Endpoint, after: Endpoint, v: Version) {
    var n := |before.variants| - 1;
    && n >= 0 && after.id == before.id && |after.variants| == n + 1
    && (forall k :: 0 <= k < n ==> after.variants[k] == before.variants[k])
    && after.variants[n] == Item(before.variants[n].minimum, v, before.variants[n].value)
  }

  /** The endpoint for request inspection: one route at 2.5.5, another at the new release. */
  ghost predicate Inspects(endpoint: Endpoint, v: Version, name: Route -> string) {
    endpoint == Endpoint("sys.internal-request-inspection", [
      Item(Version(2, 5, 5), Version(2, 5, 5), name(Route("GET", "/sys/internal/inspect/request/root"))),
      Item(v, v, name(Route("GET", "/sys/internal/inspect/request")))])
  }

  ghost predicate Owned(operations: seq<Operation>, route: Route) {
    exists i :: 0 <= i < |operations| && operations[i].route == route
  }

  /** The last variant ends at the last release. */
  ghost predicate EndsAt(endpoint: Endpoint, last: Version) {
    endpoint.variants != [] && endpoint.variants[|endpoint.variants| - 1].maximum == last
  }

  /** `build` of the 2.7 candidate: refused exactly when the documented routes without an
      operation are not the run-time ones, or a variant list does not end at the last
      release. Each run-time route gets one operation. */
  method GrowByMinor(active: Registry, v: Version, e: Evidence, name: Route -> string) returns (r: Option<Registry>)
    ensures r.Some? <==>
              && active.versions != []
              && (forall route :: route in e.runtime <==> route in e.documented && !Owned(active.operations, route))
              && forall i :: 0 <= i < |active.endpoints| ==>
                   EndsAt(active.endpoints[i], active.versions[|active.versions| - 1])
    ensures r.Some? ==>
              && r.value.versions == active.versions + [v]
              && |r.value.operations| == |active.operations| + |e.runtime|
              && |r.value.endpoints| == |active.endpoints| + 1
    ensures r.Some? ==> forall i :: 0 <= i < |active.operations| ==>
              Gains(active.operations[i], r.value.operations[i], v, e)
    ensures r.Some? ==> forall i :: |active.operations| <= i < |r.value.operations| ==>
              Fresh(r.value.operations[i], active.versions, v, e, name)
    ensures r.Some? ==> forall route :: route in e.runtime ==> Owned(r.value.operations, route)
    ensures r.Some? ==> forall i :: 0 <= i < |active.endpoints| ==>
              Stretched(active.endpoints[i], r.value.endpoints[i], v)
    ensures r.Some? ==> Inspects(r.value.endpoints[|active.endpoints|], v, name)
  {
    hide MinorState, MinorGives, KeepsHistory, WellFormed, Extends;
    r := AppendMinor(active, v, e, name);
    OwnedIs(active.operations);
    hide Routes, Owned;
    assert e.documented - Routes(active.operations) == e.runtime <==>
           forall route :: route in e.runtime <==> route in e.documented && !Owned(active.operations, route);
    if r.Some? {
      OwnedIs(r.value.operations);
      forall i | 0 <= i < |active.operations| ensures Gains(active.operations[i], r.value.operations[i], v, e) {
        GainsIs(active.operations[i], v, e);
      }
      forall i | |active.operations| <= i < |r.value.operations|
        ensures Fresh(r.value.operations[i], active.versions, v, e, name)
      {
        FreshIs(r.value.operations[i].route, active.versions, v, e, name);
      }
    }
  }

  lemma {:induction false} OwnedIs(operations: seq<Operation>)
    ensures forall route :: route in Routes(operations) <==> Owned(operations, route)
  {
    forall i | 0 <= i < |operations| ensures operations[i].route in Routes(operations) {
      assert operations[i] in operations;
    }
  }

  lemma {:induction false} GainsIs(operation: Operation, v: Version, e: Evidence)
    ensures Gains(operation, MinorOperation(operation, v, e), v, e)
  {
    var state := MinorState(operation.route, operation.disposition, e);
    MinorMeans(operation.route, operation.disposition, e, state);
    hide MinorState, MinorGives;
  }

  lemma {:induction false} FreshIs(route: Route, versions: seq<Version>, v: Version, e: Evidence, name: Route -> string)
    requires versions != [] && route in e.runtime
    ensures Fresh(NewOperation(route, versions, v, e, name), versions, v, e, name)
  {
    var state := MinorState(route, "typed-gated", e);
    MinorMeans(route, "typed-gated", e, state);
    hide MinorState, MinorGives;
  }

  // ----- The merge of two branches

  /** Exactly one item holds the release, and it is this one. */
  ghost predicate OnlyItem<T(!new)>(items: seq<Item<T>>, v: Version, item: Item<T>) {
    exists i: nat :: IsOnly(items, v, i) && items[i] == item
  }

  lemma {:induction false} OnlyItemIs<T(!new)>(items: seq<Item<T>>, v: Version, item: Item<T>)
    ensures Matches(items, v) == [item] <==> OnlyItem(items, v, item)
    ensures Matches(items, v) == [] <==> NoneHolds(items, v)
  {
    var at := MatchesAt(items, v);
    hide Holds, Matches;
    assert at != [] ==> Holds(items[at[0]], v);
    if i: nat :| IsOnly(items, v, i) && items[i] == item {
      OneEntry(at, i);
    }
    if Matches(items, v) == [item] {
      forall j: nat | j < |items| && Holds(items[j], v) ensures j == at[0] {
        assert j in at;
      }
      assert IsOnly(items, v, at[0]);
    }
  }

  ghost predicate IsOnly<T(!new)>(items: seq<Item<T>>, v: Version, i: nat) {
    i < |items| && Holds(items[i], v) && forall j: nat :: j < |items| && Holds(items[j], v) ==> j == i
  }

  /** The branches have the same only item for the release, or, where that is allowed, none. */
  ghost predicate SameItem<T(!new)>(left: seq<Item<T>>, right: seq<Item<T>>, v: Version, optional: bool) {
    || (optional && NoneHolds(left, v) && NoneHolds(right, v))
    || exists item :: OnlyItem(left, v, item) && OnlyItem(right, v, item)
  }

  /** The release has an item of its own, or, where that is allowed, none. */
  ghost predicate OwnItem<T(!new)>(items: seq<Item<T>>, v: Version, optional: bool) {
    || (optional && NoneHolds(items, v))
    || exists item :: OnlyItem(items, v, item) && item.minimum == v && item.maximum == v
  }

  lemma {:induction false} SameItemIs<T(!new)>(left: seq<Item<T>>, right: seq<Item<T>>, v: Version, optional: bool)
    ensures SameItem(left, right, v, optional) <==>
              && SelectedOk(left, v, optional) && SelectedOk(right, v, optional)
              && Matches(left, v) == Matches(right, v)
  {
    forall item
      ensures Matches(left, v) == [item] <==> OnlyItem(left, v, item)
      ensures Matches(right, v) == [item] <==> OnlyItem(right, v, item)
      ensures Matches(left, v) == [] <==> NoneHolds(left, v)
      ensures Matches(right, v) == [] <==> NoneHolds(right, v)
    {
      OnlyItemIs(left, v, item);
      OnlyItemIs(right, v, item);
    }
    hide Matches, OnlyItem, NoneHolds;
    if |Matches(left, v)| == 1 && Matches(left, v) == Matches(right, v) {
      var item := Matches(left, v)[0];
      assert Matches(left, v) == [item];
      assert OnlyItem(left, v, item) && OnlyItem(right, v, item);
    }
    NoneAre(left, v);
    NoneAre(right, v);
  }

  lemma {:induction false} NoneAre<T(!new)>(items: seq<Item<T>>, v: Version)
    ensures Matches(items, v) == [] <==> NoneHolds(items, v)
  {
    LookupIs(items, v);
    hide NoneHolds, Matches, FirstHas;
  }

  lemma {:induction false} OwnItemIs<T(!new)>(items: seq<Item<T>>, v: Version, optional: bool)
    ensures OwnItem(items, v, optional) <==> SelectedOk(items, v, optional) && OwnRange(items, v)
  {
    forall item ensures Matches(items, v) == [item] <==> OnlyItem(items, v, item) {
      OnlyItemIs(items, v, item);
    }
    NoneAre(items, v);
    hide Matches, OnlyItem, NoneHolds;
    if |Matches(items, v)| == 1 && OwnRange(items, v) {
      var item := Matches(items, v)[0];
      assert item in Matches(items, v) && Matches(items, v) == [item];
      assert OnlyItem(items, v, item);
    }
  }

  /** What two lists of the branches must satisfy, release by release. */
  ghost predicate Mergeable<T(!new)>(left: seq<Item<T>>, right: seq<Item<T>>, shared: seq<Version>, added: seq<Version>,
                               optional: bool) {
    && (forall v :: v in shared ==> SameItem(left, right, v, optional))
    && (forall v :: v in added ==> OwnItem(right, v, optional))
  }

  lemma {:induction false} MergeableIs<T(!new)>(left: seq<Item<T>>, right: seq<Item<T>>, shared: seq<Version>,
                                          added: seq<Version>, optional: bool)
    ensures Mergeable(left, right, shared, added, optional) <==> Agree(left, right, shared, added, optional)
  {
    forall v
      ensures SameItem(left, right, v, optional) <==>
                && SelectedOk(left, v, optional) && SelectedOk(right, v, optional)
                && Matches(left, v) == Matches(right, v)
      ensures OwnItem(right, v, optional) <==> SelectedOk(right, v, optional) && OwnRange(right, v)
    {
      SameItemIs(left, right, v, optional);
      OwnItemIs(right, v, optional);
    }
    hide SameItem, OwnItem, SelectedOk, OwnRange, Matches;
  }

  /** An added release has the right branch's item, unless the left branch has one too; every
      other release has what the left branch has. */
  ghost predicate MergeSays<T(!new)>(left: seq<Item<T>>, right: seq<Item<T>>, added: seq<Version>,
                                     target: seq<Item<T>>) {
    forall u, item :: OnlySays(left, right, added, target, u, item)
  }

  ghost predicate OnlySays<T(!new)>(left: seq<Item<T>>, right: seq<Item<T>>, added: seq<Version>, target: seq<Item<T>>,
                              u: Version, item: Item<T>) {
    if u !in added then
      (OnlyItem(target, u, item) <==> OnlyItem(left, u, item)) && (NoneHolds(target, u) <==> NoneHolds(left, u))
    else if NoneHolds(left, u) then
      (OnlyItem(target, u, item) <==> OnlyItem(right, u, item)) && (NoneHolds(target, u) <==> NoneHolds(right, u))
    else FirstHas(left, u, item.value) <==> FirstHas(target, u, item.value)
  }

  lemma {:induction false} MergeSaysIs<T(!new)>(left: seq<Item<T>>, right: seq<Item<T>>, added: seq<Version>,
                                                target: seq<Item<T>>)
    requires Joined(left, right, added, target)
    ensures MergeSays(left, right, added, target)
  {
    forall u, item ensures OnlySays(left, right, added, target, u, item) {
      OnlyItemIs(left, u, item);
      OnlyItemIs(right, u, item);
      OnlyItemIs(target, u, item);
      LookupIs(left, u);
      LookupIs(target, u);
      hide Matches, OnlyItem, NoneHolds, FirstHas;
      if NoneHolds(left, u) {
        assert [] + Matches(right, u) == Matches(right, u);
      }
    }
  }

  /** `combine`: refused exactly when the branches list other releases, differ in an identity
      or in the item of a shared release, or lack an item of their own for an added one. */
  method GrowByMerging(left: Registry, right: Registry, base: seq<Version>, mids: seq<Version>, pivot: Version,
                       added: seq<Version>)
    returns (r: Option<Registry>)
    requires Distinct(added)
    ensures r.Some? <==>
              && left.versions == base + mids + [pivot] && right.versions == base + [pivot] + added
              && |left.operations| == |right.operations| && |left.endpoints| == |right.endpoints|
              && (forall i :: 0 <= i < |left.operations| ==>
                    && left.operations[i] == right.operations[i].(ranges := left.operations[i].ranges)
                    && Mergeable(left.operations[i].ranges, right.operations[i].ranges, base + [pivot], added, false))
              && forall i :: 0 <= i < |left.endpoints| ==>
                   && left.endpoints[i] == right.endpoints[i].(variants := left.endpoints[i].variants)
                   && Mergeable(left.endpoints[i].variants, right.endpoints[i].variants, base + [pivot], added, true)
    ensures r.Some? ==>
              && r.value.versions == left.versions + added
              && |r.value.operations| == |left.operations| && |r.value.endpoints| == |left.endpoints|
    ensures r.Some? ==> forall i :: 0 <= i < |left.operations| ==>
              && r.value.operations[i] == left.operations[i].(ranges := r.value.operations[i].ranges)
              && MergeSays(left.operations[i].ranges, right.operations[i].ranges, added, r.value.operations[i].ranges)
    ensures r.Some? ==> forall i :: 0 <= i < |left.endpoints| ==>
              && r.value.endpoints[i] == left.endpoints[i].(variants := r.value.endpoints[i].variants)
              && MergeSays(left.endpoints[i].variants, right.endpoints[i].variants, added,
                           r.value.endpoints[i].variants)
  {
    hide Agree, Joined, Mergeable, MergeSays, KeepsHistory, WellFormed, AllMerged;
    r := Combine(left, right, base, mids, pivot, added);
    forall i | 0 <= i < |left.operations| && |left.operations| == |right.operations|
      ensures Mergeable(left.operations[i].ranges, right.operations[i].ranges, base + [pivot], added, false)
          <==> Agree(left.operations[i].ranges, right.operations[i].ranges, base + [pivot], added, false)
    {
      MergeableIs(left.operations[i].ranges, right.operations[i].ranges, base + [pivot], added, false);
    }
    forall i | 0 <= i < |left.endpoints| && |left.endpoints| == |right.endpoints|
      ensures Mergeable(left.endpoints[i].variants, right.endpoints[i].variants, base + [pivot], added, true)
          <==> Agree(left.endpoints[i].variants, right.endpoints[i].variants, base + [pivot], added, true)
    {
      MergeableIs(left.endpoints[i].variants, right.endpoints[i].variants, base + [pivot], added, true);
    }
    if r.Some? {
      forall i | 0 <= i < |left.operations|
        ensures MergeSays(left.operations[i].ranges, right.operations[i].ranges, added, r.value.operations[i].ranges)
      {
        MergeSaysIs(left.operations[i].ranges, right.operations[i].ranges, added, r.value.operations[i].ranges);
      }
      forall i | 0 <= i < |left.endpoints|
        ensures MergeSays(left.endpoints[i].variants, right.endpoints[i].variants, added, r.value.endpoints[i].variants)
      {
        MergeSaysIs(left.endpoints[i].variants, right.endpoints[i].variants, added, r.value.endpoints[i].variants);
      }
    }
  }
}
