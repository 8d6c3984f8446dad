/** Version ranges: run-length compression of per-release states, both lookups, and the
    validator's loops (scripts/generate_openbao_capability_registry.py and
    scripts/generate_openbao_version_contracts.py, state_for). */
module Ranges {
  import opened Text
  import opened Versions

  /** A closed interval of releases carrying a state (a range) or a route (a variant). */
  datatype Item<T> = Item(minimum: Version, maximum: Version, value: T)

  datatype State = State(availability: string, evidence: string)

  const ALLOWED := {
    State("unavailable", "none"),
    State("documented", "tagged-documentation"),
    State("documented", "locked-openapi"),
    State("documented", "corrected-2.5.5-contract"),
    State("security-blocked", "tagged-documentation"),
    State("security-blocked", "locked-openapi")
  }

  // ----- Lookup

  predicate Covers<T>(item: Item<T>, v: Version) {
    AtMost(item.minimum, v) && AtMost(v, item.maximum)
  }

  /** The items whose interval holds the version, in list order. */
  function Matches<T>(items: seq<Item<T>>, v: Version): seq<Item<T>> {
    if items == [] then []
    else (if Covers(items[0], v) then [items[0]] else []) + Matches(items[1..], v)
  }

  lemma {:induction false} MatchesAppend<T>(a: seq<Item<T>>, b: seq<Item<T>>, v: Version)
    ensures Matches(a + b, v) == Matches(a, v) + Matches(b, v)
  {
    if a == [] {
      assert a + b == b;
    } else {
      MatchesAppend(a[1..], b, v);
      AppendHead(a, b);
      AppendAssoc(if Covers(a[0], v) then [a[0]] else [], Matches(a[1..], v), Matches(b, v));
    }
  }

  lemma {:induction false} MatchesMembers<T>(items: seq<Item<T>>, v: Version)
    ensures forall item :: item in Matches(items, v) <==> item in items && Covers(item, v)
  {
    if items != [] {
      MatchesMembers(items[1..], v);
    }
  }

  /** The value the source's scans return: that of the first match. */
  function Lookup<T>(items: seq<Item<T>>, v: Version): Option<T> {
    var found := Matches(items, v);
    if found == [] then None else Some(found[0].value)
  }

  /** `state_for_version`: number comparison, first hit wins, no hit is an error. */
  method StateForVersion<T>(items: seq<Item<T>>, v: Version) returns (r: Option<T>)
    ensures r == Lookup(items, v)
  {
    var k := 0;
    assert items[0..] == items;
    while k < |items|
      invariant 0 <= k <= |items|
      invariant Matches(items, v) == Matches(items[k..], v)
    {
      if Covers(items[k], v) {
        return Some(items[k].value);
      }
      assert items[k..][1..] == items[k + 1..];
      k := k + 1;
    }
    r := None;
  }

  /** `version_index.get(v)` over a duplicate-free list. */
  function IndexOf(versions: seq<Version>, v: Version): (r: Option<nat>)
    ensures r.Some? ==> r.value < |versions| && versions[r.value] == v
    ensures r.None? ==> v !in versions
  {
    if versions == [] then None
    else if versions[0] == v then Some(0)
    else
      var rest := IndexOf(versions[1..], v);
      if rest.Some? then Some(rest.value + 1) else None
  }

  lemma {:induction false} IndexOfAt(versions: seq<Version>, i: nat)
    requires Distinct(versions) && i < |versions|
    ensures IndexOf(versions, versions[i]) == Some(i)
  {
  }

  ghost predicate Known<T>(versions: seq<Version>, item: Item<T>) {
    item.minimum in versions && item.maximum in versions
  }

  /** `state_for`: position comparison; an unknown bound met on the way is an error.
      On an ascending list with known bounds it agrees with the number comparison. */
  method StateFor<T>(versions: seq<Version>, items: seq<Item<T>>, v: Version) returns (r: Option<T>)
    requires Ascending(versions) && v in versions
    ensures (forall item :: item in items ==> Known(versions, item)) ==> r == Lookup(items, v)
    ensures r.Some? ==> r == Lookup(items, v)
  {
    AscendingDistinct(versions);
    var selected := IndexOf(versions, v);
    var k := 0;
    assert items[0..] == items;
    while k < |items|
      invariant 0 <= k <= |items|
      invariant Matches(items, v) == Matches(items[k..], v)
    {
      var minimum, maximum := IndexOf(versions, items[k].minimum), IndexOf(versions, items[k].maximum);
      if minimum.None? || maximum.None? {
        assert items[k] in items && !Known(versions, items[k]);
        return None;
      }
      OrderIsPosition(versions, minimum.value, selected.value);
      OrderIsPosition(versions, selected.value, maximum.value);
      if minimum.value <= selected.value <= maximum.value {
        return Some(items[k].value);
      }
      assert items[k..][1..] == items[k + 1..];
      k := k + 1;
    }
    r := None;
  }

  // ----- Compression

  /** One past the last index of the run of equal states that begins at `start`. */
  function RunEnd<T(==)>(states: seq<T>, start: nat): (e: nat)
    requires start < |states|
    ensures start < e <= |states|
    ensures forall i :: start <= i < e ==> states[i] == states[start]
    ensures e < |states| ==> states[e] != states[start]
    decreases |states| - start
  {
    if start + 1 < |states| && states[start + 1] == states[start] then RunEnd(states, start + 1)
    else start + 1
  }

  function CompressFrom<T(==)>(versions: seq<Version>, states: seq<T>, start: nat): seq<Item<T>>
    requires |versions| == |states| && start <= |states|
    decreases |states| - start
  {
    if start == |states| then []
    else
      var e := RunEnd(states, start);
      [Item(versions[start], versions[e - 1], states[start])] + CompressFrom(versions, states, e)
  }

  /** `compress_ranges` */
  method CompressRanges<T(==)>(versions: seq<Version>, states: seq<T>) returns (r: Option<seq<Item<T>>>)
    ensures r.Some? <==> |versions| == |states| && versions != []
    ensures r.Some? ==> r.value == CompressFrom(versions, states, 0)
  {
    if |versions| != |states| || versions == [] {
      return None;
    }
    var ranges: seq<Item<T>>, start: nat := [], 0;
    for index := 1 to |states| + 1
      invariant if index <= |states| then start < index else start == |states|
      invariant forall i :: start <= i < index && i < |states| ==> states[i] == states[start]
      invariant ranges + CompressFrom(versions, states, start) == CompressFrom(versions, states, 0)
    {
      if !(index != |states| && states[index] == states[start]) {
        assert RunEnd(states, start) == index;
        var item := Item(versions[start], versions[index - 1], states[start]);
        AppendAssoc(ranges, [item], CompressFrom(versions, states, index));
        ranges := ranges + [item];
        start := index;
      }
    }
    r := Some(ranges);
  }

  /** Compression loses nothing: every release is matched once, by its own state. */
  lemma {:induction false} CompressLookup<T>(versions: seq<Version>, states: seq<T>, start: nat, i: nat)
    requires Ascending(versions) && |versions| == |states| && start <= |states| && i < |states|
    ensures var found := Matches(CompressFrom(versions, states, start), versions[i]);
            if i < start then found == [] else |found| == 1 && found[0].value == states[i]
    decreases |states| - start
  {
    if start < |states| {
      var e := RunEnd(states, start);
      CompressLookup(versions, states, e, i);
      OrderIsPosition(versions, start, i);
      OrderIsPosition(versions, i, e - 1);
    }
  }

  // ----- The validator's range loop

  /** The loop from position `start` on, after a range with state `previous`. */
  ghost predicate AcceptedFrom(versions: seq<Version>, items: seq<Item<State>>, start: nat, previous: Option<State>) {
    if items == [] then start == |versions|
    else
      var minimum, maximum := IndexOf(versions, items[0].minimum), IndexOf(versions, items[0].maximum);
      && minimum == Some(start)
      && maximum.Some? && start <= maximum.value
      && items[0].value in ALLOWED
      && Some(items[0].value) != previous
      && AcceptedFrom(versions, items[1..], maximum.value + 1, Some(items[0].value))
  }

  ghost predicate Accepted(versions: seq<Version>, items: seq<Item<State>>) {
    items != [] && AcceptedFrom(versions, items, 0, None)
  }

  /** The range checks of `validate_registry` for one operation. */
  method ValidateRanges(versions: seq<Version>, items: seq<Item<State>>) returns (ok: bool)
    ensures ok <==> Accepted(versions, items)
  {
    if items == [] {
      return false;
    }
    var expected: nat, previous: Option<State>, k := 0, None, 0;
    assert items[0..] == items;
    while k < |items|
      invariant 0 <= k <= |items|
      invariant Accepted(versions, items) <==> AcceptedFrom(versions, items[k..], expected, previous)
    {
      var minimum, maximum := IndexOf(versions, items[k].minimum), IndexOf(versions, items[k].maximum);
      var state := items[k].value;
      if || minimum != Some(expected) || maximum.None? || maximum.value < minimum.value
         || state !in ALLOWED || Some(state) == previous {
        return false;
      }
      assert items[k..][1..] == items[k + 1..];
      expected, previous, k := maximum.value + 1, Some(state), k + 1;
    }
    ok := expected == |versions|;
  }

  ghost predicate AllAllowed(states: seq<State>) {
    forall i :: 0 <= i < |states| ==> states[i] in ALLOWED
  }

  lemma {:induction false} CompressionAccepted(versions: seq<Version>, states: seq<State>, start: nat,
                                               previous: Option<State>)
    requires Distinct(versions) && |versions| == |states| && start <= |states| && AllAllowed(states)
    requires start < |states| ==> Some(states[start]) != previous
    ensures AcceptedFrom(versions, CompressFrom(versions, states, start), start, previous)
    decreases |states| - start
  {
    if start < |states| {
      var e := RunEnd(states, start);
      IndexOfAt(versions, start);
      IndexOfAt(versions, e - 1);
      CompressionAccepted(versions, states, e, Some(states[start]));
    }
  }

  /** The state vector from position `start` on that an accepted list spells out. */
  ghost function Expand(versions: seq<Version>, items: seq<Item<State>>, start: nat,
                        previous: Option<State>): (states: seq<State>)
    requires AcceptedFrom(versions, items, start, previous)
    ensures start + |states| == |versions| && AllAllowed(states)
    ensures items == [] <==> states == []
    ensures items != [] ==> states[0] == items[0].value
    decreases |items|
  {
    if items == [] then []
    else
      var stop := IndexOf(versions, items[0].maximum).value + 1;
      seq(stop - start, i => items[0].value)
        + Expand(versions, items[1..], stop, Some(items[0].value))
  }

  lemma {:induction false} SuffixParts<T>(states: seq<T>, start: nat, run: seq<T>, rest: seq<T>)
    requires start <= |states| && states[start..] == run + rest
    ensures start + |run| <= |states| && states[start + |run|..] == rest
    ensures forall i :: start <= i < start + |run| ==> states[i] == run[i - start]
  {
    assert states == states[..start] + (run + rest);
  }

  lemma {:induction false} RunIs<T>(states: seq<T>, start: nat, stop: nat)
    requires start < stop <= |states|
    requires forall i :: start <= i < stop ==> states[i] == states[start]
    requires stop < |states| ==> states[stop] != states[start]
    ensures RunEnd(states, start) == stop
  {
    hide RunEnd;
    assert !(RunEnd(states, start) < stop) && !(stop < RunEnd(states, start));
  }

  lemma {:induction false} ExpandCompresses(versions: seq<Version>, items: seq<Item<State>>, start: nat,
                                            previous: Option<State>, states: seq<State>)
    requires AcceptedFrom(versions, items, start, previous)
    requires |states| == |versions| && start <= |states|
    requires states[start..] == Expand(versions, items, start, previous)
    ensures CompressFrom(versions, states, start) == items
    decreases |items|
  {
    hide RunEnd, Expand, IndexOf, ALLOWED;
    if items == [] {
      assert start == |states|;
    } else {
      var head := items[0];
      var stop := IndexOf(versions, head.maximum).value + 1;
      var rest := Expand(versions, items[1..], stop, Some(head.value));
      ExpandCons(versions, items, start, previous);
      SuffixParts(states, start, seq(stop - start, i => head.value), rest);
      assert stop < |states| ==> states[stop] == rest[0];
      RunIs(states, start, stop);
      ExpandCompresses(versions, items[1..], stop, Some(head.value), states);
      assert items == [head] + items[1..];
    }
  }

  lemma {:induction false} ExpandCons(versions: seq<Version>, items: seq<Item<State>>, start: nat,
                                      previous: Option<State>)
    requires AcceptedFrom(versions, items, start, previous) && items != []
    ensures var stop := IndexOf(versions, items[0].maximum).value + 1;
            && start < stop <= |versions|
            && versions[start] == items[0].minimum && versions[stop - 1] == items[0].maximum
            && Expand(versions, items, start, previous)
                 == seq(stop - start, i => items[0].value) + Expand(versions, items[1..], stop, Some(items[0].value))
  {
  }

  /** The validator accepts exactly the compressions of sequences of allowed states. */
  lemma {:induction false} AcceptedIff(versions: seq<Version>, items: seq<Item<State>>)
    requires Distinct(versions) && versions != []
    ensures Accepted(versions, items) <==>
              exists states: seq<State> :: |states| == |versions| && AllAllowed(states)
                                           && items == CompressFrom(versions, states, 0)
  {
    if Accepted(versions, items) {
      var states := Expand(versions, items, 0, None);
      assert states[0..] == states;
      ExpandCompresses(versions, items, 0, None, states);
    }
    forall states: seq<State> | |states| == |versions| && AllAllowed(states)
                                && items == CompressFrom(versions, states, 0)
      ensures Accepted(versions, items)
    {
      CompressionAccepted(versions, states, 0, None);
    }
  }

  /** Accepted lists are canonical: equal lookups mean equal lists. */
  lemma {:induction false} AcceptedCanonical(versions: seq<Version>, a: seq<Item<State>>, b: seq<Item<State>>)
    requires Ascending(versions) && versions != []
    requires Accepted(versions, a) && Accepted(versions, b)
    requires forall v :: v in versions ==> Lookup(a, v) == Lookup(b, v)
    ensures a == b
  {
    AscendingDistinct(versions);
    AcceptedIff(versions, a);
    AcceptedIff(versions, b);
    var sa: seq<State> :| |sa| == |versions| && AllAllowed(sa) && a == CompressFrom(versions, sa, 0);
    var sb: seq<State> :| |sb| == |versions| && AllAllowed(sb) && b == CompressFrom(versions, sb, 0);
    forall i | 0 <= i < |versions| ensures sa[i] == sb[i] {
      CompressLookup(versions, sa, 0, i);
      CompressLookup(versions, sb, 0, i);
      assert Lookup(a, versions[i]) == Lookup(b, versions[i]);
    }
    assert sa == sb;
  }

  /** An accepted list matches every release exactly once, with an allowed state. */
  lemma {:induction false} AcceptedLookup(versions: seq<Version>, items: seq<Item<State>>, v: Version)
    requires Ascending(versions) && Accepted(versions, items) && v in versions
    ensures |Matches(items, v)| == 1 && Matches(items, v)[0].value in ALLOWED
  {
    AscendingDistinct(versions);
    AcceptedIff(versions, items);
    var states: seq<State> :|
      |states| == |versions| && AllAllowed(states) && items == CompressFrom(versions, states, 0);
    var i :| 0 <= i < |versions| && versions[i] == v;
    CompressLookup(versions, states, 0, i);
  }

  // ----- The validator's endpoint loop

  /** The variants from position `expected` on; `expected == |versions|` stands for the
      empty string that ends the coverage. */
  ghost predicate VariantsFrom<K>(versions: seq<Version>, ids: set<K>, items: seq<Item<K>>, expected: nat) {
    if items == [] then expected == |versions|
    else
      var maximum := IndexOf(versions, items[0].maximum);
      && items[0].value in ids
      && IndexOf(versions, items[0].minimum) == Some(expected)
      && maximum.Some? && expected <= maximum.value
      && VariantsFrom(versions, ids, items[1..], maximum.value + 1)
  }

  /** The variant checks of `validate_registry` for one logical endpoint. */
  method ValidateVariants<K>(versions: seq<Version>, ids: set<K>, items: seq<Item<K>>) returns (ok: bool)
    ensures ok <==> VariantsFrom(versions, ids, items, 0)
  {
    var expected: nat, k := 0, 0;
    assert items[0..] == items;
    while k < |items|
      invariant 0 <= k <= |items|
      invariant VariantsFrom(versions, ids, items, 0) <==> VariantsFrom(versions, ids, items[k..], expected)
    {
      var minimum, maximum := IndexOf(versions, items[k].minimum), IndexOf(versions, items[k].maximum);
      if items[k].value !in ids || minimum.None? || maximum.None? || minimum.value > maximum.value
         || minimum.value != expected {
        return false;
      }
      assert items[k..][1..] == items[k + 1..];
      expected, k := maximum.value + 1, k + 1;
    }
    ok := expected == |versions|;
  }

  /** Accepted variants route every release to exactly one known operation. */
  lemma {:induction false} VariantsRoute<K>(versions: seq<Version>, ids: set<K>, items: seq<Item<K>>, expected: nat,
                                            i: nat)
    requires Ascending(versions) && VariantsFrom(versions, ids, items, expected)
    requires i < |versions|
    ensures var found := Matches(items, versions[i]);
            if i < expected then found == [] else |found| == 1 && found[0].value in ids
  {
    if items != [] {
      var stop := IndexOf(versions, items[0].maximum).value + 1;
      VariantsRoute(versions, ids, items[1..], stop, i);
      OrderIsPosition(versions, expected, i);
      OrderIsPosition(versions, i, stop - 1);
      hide IndexOf, Less, Ascending;
    }
  }

  /** The position of a release, or one past the end for an unknown one. */
  function Position(versions: seq<Version>, v: Version): nat {
    var index := IndexOf(versions, v);
    if index.Some? then index.value else |versions|
  }

  /** First and last position an item spans. */
  function Low<K>(versions: seq<Version>, item: Item<K>): nat {
    Position(versions, item.minimum)
  }

  function High<K>(versions: seq<Version>, item: Item<K>): nat {
    Position(versions, item.maximum)
  }

  ghost predicate Proper<K>(versions: seq<Version>, ids: set<K>, item: Item<K>) {
    item.value in ids && Known(versions, item) && Low(versions, item) <= High(versions, item)
  }

  ghost predicate CoveredBy<K>(versions: seq<Version>, items: seq<Item<K>>, i: nat) {
    exists k :: 0 <= k < |items| && Low(versions, items[k]) <= i <= High(versions, items[k])
  }

  /** Known operations and bounds, nothing before `from`. */
  ghost predicate Above<K>(versions: seq<Version>, ids: set<K>, items: seq<Item<K>>, from: nat) {
    forall item :: item in items ==> Proper(versions, ids, item) && from <= Low(versions, item)
  }

  /** In order and disjoint. */
  ghost predicate Increasing<K>(versions: seq<Version>, items: seq<Item<K>>) {
    forall k, l :: 0 <= k < l < |items| ==> High(versions, items[k]) < Low(versions, items[l])
  }

  ghost predicate Covering<K>(versions: seq<Version>, items: seq<Item<K>>, from: nat) {
    forall i :: from <= i < |versions| ==> CoveredBy(versions, items, i)
  }

  ghost predicate Partition<K>(versions: seq<Version>, ids: set<K>, items: seq<Item<K>>, from: nat) {
    Above(versions, ids, items, from) && Increasing(versions, items) && Covering(versions, items, from)
  }

  lemma {:induction false} IncreasingCons<K>(versions: seq<Version>, items: seq<Item<K>>)
    requires items != []
    ensures Increasing(versions, items) <==>
              (forall item :: item in items[1..] ==> High(versions, items[0]) < Low(versions, item))
              && Increasing(versions, items[1..])
  {
    hide IndexOf, Position, Low, High;
    var rest := items[1..];
    if Increasing(versions, items) {
      forall item | item in rest ensures High(versions, items[0]) < Low(versions, item) {
        var k :| 0 <= k < |rest| && rest[k] == item;
        assert items[k + 1] == item;
      }
    }
    assert forall k :: 0 <= k < |rest| ==> rest[k] == items[k + 1];
  }

  lemma {:induction false} CoveredCons<K>(versions: seq<Version>, items: seq<Item<K>>, i: nat)
    requires items != []
    ensures CoveredBy(versions, items, i) <==>
              Low(versions, items[0]) <= i <= High(versions, items[0]) || CoveredBy(versions, items[1..], i)
  {
    hide IndexOf, Position, Low, High;
    if CoveredBy(versions, items, i) {
      var k :| 0 <= k < |items| && Low(versions, items[k]) <= i <= High(versions, items[k]);
      if k > 0 { assert items[1..][k - 1] == items[k]; }
    }
    if CoveredBy(versions, items[1..], i) {
      var k :| 0 <= k < |items[1..]| && Low(versions, items[1..][k]) <= i <= High(versions, items[1..][k]);
      assert items[k + 1] == items[1..][k];
    }
  }

  /** A partition, split at its head. */
  lemma {:induction false} PartitionCons<K>(versions: seq<Version>, ids: set<K>, items: seq<Item<K>>, expected: nat)
    requires items != []
    ensures var head, stop := items[0], High(versions, items[0]) + 1;
            Proper(versions, ids, head) && Low(versions, head) == expected ==>
              (Partition(versions, ids, items, expected) <==> Partition(versions, ids, items[1..], stop))
  {
    hide IndexOf, Position, Low, High;
    var head, rest, stop := items[0], items[1..], High(versions, items[0]) + 1;
    assert items == [head] + rest;
    IncreasingCons(versions, items);
    forall i: nat
      ensures CoveredBy(versions, items, i) <==> Low(versions, head) <= i < stop || CoveredBy(versions, rest, i)
    {
      CoveredCons(versions, items, i);
    }
    hide Increasing, CoveredBy, Proper;
  }

  lemma {:induction false} HeadStarts<K>(versions: seq<Version>, ids: set<K>, items: seq<Item<K>>, expected: nat)
    requires expected <= |versions| && items != [] && Partition(versions, ids, items, expected)
    ensures Low(versions, items[0]) == expected < |versions|
  {
    assert items[0] in items && Known(versions, items[0]);
    assert CoveredBy(versions, items, expected);
  }

  /** The endpoint loop accepts exactly the ordered, disjoint, complete coverings. */
  lemma {:induction false} VariantsIff<K>(versions: seq<Version>, ids: set<K>, items: seq<Item<K>>, expected: nat)
    requires expected <= |versions|
    ensures VariantsFrom(versions, ids, items, expected) <==> Partition(versions, ids, items, expected)
  {
    if items == [] {
      assert expected < |versions| ==> !CoveredBy(versions, items, expected);
    } else {
      var head, stop := items[0], High(versions, items[0]) + 1;
      PartitionCons(versions, ids, items, expected);
      if Partition(versions, ids, items, expected) {
        HeadStarts(versions, ids, items, expected);
        assert head in items;
      }
      if Proper(versions, ids, head) {
        VariantsIff(versions, ids, items[1..], stop);
      }
    }
  }

  // ----- Building an operation's ranges from the evidence sets

  datatype Route = Route(verb: string, path: string)

  /** One release and the routes its two kinds of evidence document. */
  datatype Release = Release(version: Version, tagged: set<Route>, openapi: set<Route>)

  /** The release whose reviewed contract is merged into the evidence. */
  const CORRECTED := Version(2, 5, 5)

  /** The state rule of `build_registry`; None is the refusal of a profile security block
      on an undocumented route. */
  function RuleState(route: Route, release: Release, current: set<Route>,
                     blocked: set<(Route, Version)>): Option<State> {
    var known := route in release.tagged || route in release.openapi
                 || (release.version == CORRECTED && route in current);
    var state :=
      if !known then State("unavailable", "none")
      else if route in release.openapi && route !in release.tagged then State("documented", "locked-openapi")
      else if release.version == CORRECTED && route !in release.tagged
      then State("documented", "corrected-2.5.5-contract")
      else State("documented", "tagged-documentation");
    if (route, release.version) !in blocked then Some(state)
    else if state.availability != "documented" then None
    else Some(State("security-blocked", state.evidence))
  }

  function ReleaseVersions(releases: seq<Release>): seq<Version> {
    seq(|releases|, i requires 0 <= i < |releases| => releases[i].version)
  }

  /** A security block on a route that only the corrected contract documents. */
  predicate CorrectedOnlyBlock(route: Route, release: Release, blocked: set<(Route, Version)>) {
    && (route, release.version) in blocked && release.version == CORRECTED
    && route !in release.tagged && route !in release.openapi
  }

  /** The ranges `build_registry` writes for one route. Looking a release up in them gives
      back the rule's state, the release is matched once, and the validator accepts the
      ranges exactly when no corrected-only route is blocked. */
  method BuildRanges(route: Route, releases: seq<Release>, current: set<Route>, blocked: set<(Route, Version)>)
    returns (r: Option<seq<Item<State>>>)
    requires Ascending(ReleaseVersions(releases))
    ensures r.Some? <==> releases != [] && forall i :: 0 <= i < |releases| ==>
                           RuleState(route, releases[i], current, blocked).Some?
    ensures r.Some? ==> forall i :: 0 <= i < |releases| ==>
              && |Matches(r.value, releases[i].version)| == 1
              && Lookup(r.value, releases[i].version) == RuleState(route, releases[i], current, blocked)
    ensures r.Some? ==>
              (Accepted(ReleaseVersions(releases), r.value)
               <==> forall i :: 0 <= i < |releases| ==> !CorrectedOnlyBlock(route, releases[i], blocked))
  {
    hide RuleState, CorrectedOnlyBlock, Accepted, Matches;
    var states: seq<State>, k := [], 0;
    while k < |releases|
      invariant 0 <= k <= |releases| && |states| == k
      invariant forall i :: 0 <= i < k ==> Some(states[i]) == RuleState(route, releases[i], current, blocked)
    {
      var state := RuleState(route, releases[k], current, blocked);
      if state.None? {
        return None;
      }
      states, k := states + [state.value], k + 1;
    }
    var versions := ReleaseVersions(releases);
    r := CompressRanges(versions, states);
    if r.Some? {
      forall i | 0 <= i < |releases|
        ensures |Matches(r.value, releases[i].version)| == 1
        ensures Lookup(r.value, releases[i].version) == RuleState(route, releases[i], current, blocked)
      {
        CompressLookup(versions, states, 0, i);
      }
      CompressedAccepted(versions, states);
      forall i | 0 <= i < |releases|
        ensures states[i] in ALLOWED <==> !CorrectedOnlyBlock(route, releases[i], blocked)
      {
        RuleAllowedIff(route, releases[i], current, blocked);
      }
    }
  }

  /** A compression is accepted exactly when all its states are allowed. */
  lemma {:induction false} CompressedAccepted(versions: seq<Version>, states: seq<State>)
    requires Ascending(versions) && |versions| == |states| && versions != []
    ensures Accepted(versions, CompressFrom(versions, states, 0)) <==> AllAllowed(states)
  {
    AscendingDistinct(versions);
    var items := CompressFrom(versions, states, 0);
    if AllAllowed(states) {
      CompressionAccepted(versions, states, 0, None);
    }
    if Accepted(versions, items) {
      forall i | 0 <= i < |states| ensures states[i] in ALLOWED {
        AcceptedLookup(versions, items, versions[i]);
        CompressLookup(versions, states, 0, i);
      }
    }
  }

  /** The one state the rules can give that the validator refuses. */
  lemma {:induction false} RuleAllowedIff(route: Route, release: Release, current: set<Route>,
                                          blocked: set<(Route, Version)>)
    requires RuleState(route, release, current, blocked).Some?
    ensures RuleState(route, release, current, blocked).value in ALLOWED
        <==> !CorrectedOnlyBlock(route, release, blocked)
  {
    assert "security-blocked" != "documented" && "security-blocked" != "unavailable";
    assert "locked-openapi" != "corrected-2.5.5-contract";
    assert "tagged-documentation" != "corrected-2.5.5-contract";
  }

  /** An evidence and a block table whose built ranges the validator refuses. */
  lemma {:induction false} CorrectedBlockRefused(route: Route)
    ensures var releases, current, blocked := [Release(CORRECTED, {}, {})], {route}, {(route, CORRECTED)};
            var states := [State("security-blocked", "corrected-2.5.5-contract")];
            && RuleState(route, releases[0], current, blocked) == Some(states[0])
            && !Accepted(ReleaseVersions(releases), CompressFrom(ReleaseVersions(releases), states, 0))
  {
    var releases, states := [Release(CORRECTED, {}, {})], [State("security-blocked", "corrected-2.5.5-contract")];
    assert Ascending(ReleaseVersions(releases));
    CompressedAccepted(ReleaseVersions(releases), states);
    RuleAllowedIff(route, releases[0], {route}, {(route, CORRECTED)});
    assert states[0] !in ALLOWED;
  }

  /** `PROFILE_SECURITY_BLOCKED` of generate_openbao_capability_registry.py, line 133. */
  const SHIPPED_BLOCKS := {(Route("PATCH", "/auth/jwt/cel/role/:name"), Version(2, 6, 0))}

  /** With the shipped table the validator accepts every list that is built. */
  lemma {:induction false} ShippedBlocksAccepted(route: Route, releases: seq<Release>, i: nat)
    requires i < |releases|
    ensures !CorrectedOnlyBlock(route, releases[i], SHIPPED_BLOCKS)
  {
  }

  /** `build_registry`'s ranges under the shipped table, followed by the validator. */
  method BuildShippedRanges(route: Route, releases: seq<Release>, current: set<Route>)
    returns (r: Option<seq<Item<State>>>, accepted: bool)
    requires Ascending(ReleaseVersions(releases))
    ensures r.Some? <==> releases != [] && forall i :: 0 <= i < |releases| ==>
                           RuleState(route, releases[i], current, SHIPPED_BLOCKS).Some?
    ensures r.Some? ==> accepted && Accepted(ReleaseVersions(releases), r.value)
  {
    hide RuleState, Accepted, CorrectedOnlyBlock, Matches, SHIPPED_BLOCKS;
    r := BuildRanges(route, releases, current, SHIPPED_BLOCKS);
    if r.None? {
      return None, false;
    }
    forall i | 0 <= i < |releases| ensures !CorrectedOnlyBlock(route, releases[i], SHIPPED_BLOCKS) {
      ShippedBlocksAccepted(route, releases, i);
    }
    accepted := ValidateRanges(ReleaseVersions(releases), r.value);
  }
}
