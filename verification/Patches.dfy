/** Growing a reviewed registry by one release: insert a patch before the last release, or
    append a patch after it (scripts/generate_openbao_2_6_4_candidate.py, _2_6_5_, _2_7_1_
    and _2_7_2_candidate.py). */
module Patches {
  import opened Text
  import opened Versions
  import opened Ranges
  import opened Registries

  // ----- Inserting a patch before the last release

  lemma {:induction false} MatchesInsert<T>(items: seq<Item<T>>, k: nat, item: Item<T>, v: Version)
    requires k <= |items|
    ensures var grown := items[..k] + [item] + items[k..];
            && (!Covers(item, v) ==> Matches(grown, v) == Matches(items, v))
            && (Covers(item, v) ==> |Matches(grown, v)| == |Matches(items, v)| + 1)
            && (Covers(item, v) && Matches(items, v) == [] ==> Matches(grown, v) == [item])
  {
    assert items == items[..k] + items[k..];
    MatchesAppend(items[..k], items[k..], v);
    MatchesAppend(items[..k] + [item], items[k..], v);
    MatchesAppend(items[..k], [item], v);
    MatchesOne(item, v);
  }

  /** What one operation's ranges must satisfy. The 2.6.5 step (`strict`) asks for a
      predecessor range of one release; the 2.6.4 step only for one that ends there. */
  predicate InsertOk(ranges: seq<Item<State>>, prior: Version, v: Version, last: Version, strict: bool) {
    var found := Matches(ranges, prior);
    && |found| == 1 && found[0].maximum == prior && (strict ==> found[0].minimum == prior)
    && ranges != [] && ranges[|ranges| - 1].minimum == last
    && Matches(ranges, v) == []
  }

  /** The range for the new release, a copy of its predecessor's. */
  function CopyFor<T>(item: Item<T>, v: Version): Item<T> {
    item.(minimum := v, maximum := v)
  }

  /** The new release is matched once, by a copy of its predecessor's only match; every other
      release is matched by exactly the same items; the last item stays last. */
  ghost predicate InsertedItems<T>(before: seq<Item<T>>, after: seq<Item<T>>, prior: Version, v: Version) {
    && |Matches(before, prior)| == 1
    && (forall u :: u != v ==> Matches(after, u) == Matches(before, u))
    && Matches(after, v) == [CopyFor(Matches(before, prior)[0], v)]
    && before != [] && after != [] && after[|after| - 1] == before[|before| - 1]
    && (forall item :: item in after ==> item in before || item.minimum == item.maximum == v)
  }

  /** One operation of the insertion, including the count loop's final `selected`. */
  method InsertRange(ranges: seq<Item<State>>, prior: Version, v: Version, last: Version, strict: bool)
    returns (r: Option<seq<Item<State>>>)
    ensures r.Some? <==> InsertOk(ranges, prior, v, last, strict)
    ensures r.Some? ==> InsertedItems(ranges, r.value, prior, v)
  {
    hide Matches, Covers;
    var ok, found := Selected(ranges, prior, false);
    if !ok || found.value.maximum != prior || (strict && found.value.minimum != prior) || ranges == [] {
      return None;
    }
    var k := |ranges| - 1;
    if ranges[k].minimum != last {
      return None;
    }
    var item := CopyFor(found.value, v);
    var grown := ranges[..k] + [item] + ranges[k..];
    forall u ensures Covers(item, u) <==> u == v {
      PointCovers(item, v, u);
    }
    forall u | u != v ensures Matches(grown, u) == Matches(ranges, u) {
      MatchesInsert(ranges, k, item, u);
    }
    MatchesInsert(ranges, k, item, v);
    var once, _ := Selected(grown, v, false);
    r := if once then Some(grown) else None;
  }

  /** How many operations have a given availability in a release. */
  function CountState(operations: seq<Operation>, v: Version, availability: string): nat {
    if operations == [] then 0
    else
      var state := Lookup(operations[|operations| - 1].ranges, v);
      CountState(operations[..|operations| - 1], v, availability)
        + (if state.Some? && state.value.availability == availability then 1 else 0)
  }

  ghost predicate Inserted(before: Operation, after: Operation, prior: Version, v: Version) {
    SameIdentity(after, before) && InsertedItems(before.ranges, after.ranges, prior, v)
  }

  ghost predicate AllInserted(before: seq<Operation>, after: seq<Operation>, prior: Version, v: Version) {
    && |after| == |before|
    && forall i :: 0 <= i < |before| ==> Inserted(before[i], after[i], prior, v)
  }

  ghost predicate OperationsOk(operations: seq<Operation>, prior: Version, v: Version, last: Version, strict: bool) {
    forall i :: 0 <= i < |operations| ==> InsertOk(operations[i].ranges, prior, v, last, strict)
  }

  method InsertOperations(before: seq<Operation>, prior: Version, v: Version, last: Version, strict: bool)
    returns (ok: bool, after: seq<Operation>)
    ensures ok <==> OperationsOk(before, prior, v, last, strict)
    ensures ok ==> AllInserted(before, after, prior, v)
  {
    hide InsertedItems, InsertOk;
    after := [];
    var k := 0;
    while k < |before|
      invariant 0 <= k <= |before| && |after| == k
      invariant forall i :: 0 <= i < k ==> InsertOk(before[i].ranges, prior, v, last, strict)
      invariant forall i :: 0 <= i < k ==> Inserted(before[i], after[i], prior, v)
    {
      var grown := InsertRange(before[k].ranges, prior, v, last, strict);
      if grown.None? {
        return false, after;
      }
      var operation := before[k].(ranges := grown.value);
      assert Inserted(before[k], operation, prior, v);
      after, k := after + [operation], k + 1;
    }
    ok := true;
  }

  /** The route of the new release is the predecessor's, or both have none. */
  predicate EndpointOk(endpoint: Endpoint, prior: Version, v: Version) {
    && SelectedOk(endpoint.variants, prior, true)
    && Matches(endpoint.variants, prior) == Matches(endpoint.variants, v)
  }

  method CheckEndpoints(endpoints: seq<Endpoint>, prior: Version, v: Version) returns (ok: bool)
    ensures ok <==> forall i :: 0 <= i < |endpoints| ==> EndpointOk(endpoints[i], prior, v)
  {
    var k := 0;
    while k < |endpoints|
      invariant 0 <= k <= |endpoints|
      invariant forall i :: 0 <= i < k ==> EndpointOk(endpoints[i], prior, v)
    {
      var okPrior, before := Selected(endpoints[k].variants, prior, true);
      var okNew, after := Selected(endpoints[k].variants, v, true);
      if !okPrior || !okNew || before != after {
        return false;
      }
      k := k + 1;
    }
    ok := true;
  }

  function Get(counts: map<string, nat>, key: string): nat {
    if key in counts then counts[key] else 0
  }

  /** The summary's counts of the new release's states. */
  method CountStates(operations: seq<Operation>, v: Version) returns (counts: map<string, nat>)
    requires forall i :: 0 <= i < |operations| ==> |Matches(operations[i].ranges, v)| == 1
    ensures forall s :: Get(counts, s) == CountState(operations, v, s)
  {
    counts := map[];
    var k := 0;
    while k < |operations|
      invariant 0 <= k <= |operations|
      invariant forall s :: Get(counts, s) == CountState(operations[..k], v, s)
    {
      assert operations[..k + 1][..k] == operations[..k];
      var state := Matches(operations[k].ranges, v)[0].value.availability;
      counts := counts[state := Get(counts, state) + 1];
      k := k + 1;
    }
    assert operations[..k] == operations;
  }

  ghost predicate InsertAllOk(parent: Registry, prior: Version, v: Version, last: Version, strict: bool) {
    var n := |parent.versions|;
    && n >= 2 && parent.versions[n - 2] == prior && parent.versions[n - 1] == last
    && OperationsOk(parent.operations, prior, v, last, strict)
    && (forall i :: 0 <= i < |parent.endpoints| ==> EndpointOk(parent.endpoints[i], prior, v))
  }

  /** The result of the step: the new release before the last one, the same endpoints. */
  ghost predicate InsertStep(parent: Registry, child: Registry, prior: Version, v: Version, last: Version) {
    && |parent.versions| >= 2
    && child.versions == parent.versions[..|parent.versions| - 1] + [v, last]
    && AllInserted(parent.operations, child.operations, prior, v)
    && child.endpoints == parent.endpoints
  }

  /** `build` of the 2.6.4 and 2.6.5 steps: it passes exactly when the stated requirements
      hold; then no release of the parent changes, and the new one inherits. */
  method InsertPatch(parent: Registry, prior: Version, v: Version, last: Version, strict: bool)
    returns (r: Option<Registry>, counts: map<string, nat>)
    requires Less(prior, v) && Less(v, last)
    ensures r.Some? <==> InsertAllOk(parent, prior, v, last, strict)
    ensures r.Some? ==>
              && InsertStep(parent, r.value, prior, v, last)
              && (v !in parent.versions ==> KeepsHistory(parent, r.value))
              && InheritsAll(parent, r.value, prior, v)
              && (forall s :: Get(counts, s) == CountState(r.value.operations, v, s))
              && (WellFormed(parent) ==> WellFormed(r.value))
  {
    var n := |parent.versions|;
    if n < 2 || parent.versions[n - 2] != prior || parent.versions[n - 1] != last {
      return None, map[];
    }
    var okOperations, operations := InsertOperations(parent.operations, prior, v, last, strict);
    if !okOperations {
      return None, map[];
    }
    var okEndpoints := CheckEndpoints(parent.endpoints, prior, v);
    if !okEndpoints {
      return None, map[];
    }
    forall i | 0 <= i < |operations| ensures |Matches(operations[i].ranges, v)| == 1 {
      assert Inserted(parent.operations[i], operations[i], prior, v);
    }
    hide Matches, Inherits, InsertedItems, Tidy;
    counts := CountStates(operations, v);
    var child := Registry(parent.versions[..n - 1] + [v, last], operations, parent.endpoints);
    InsertedHistory(parent, child, prior, v);
    if WellFormed(parent) {
      InsertWellFormed(parent, child, prior, v, last);
    }
    r := Some(child);
  }

  lemma {:induction false} InsertedHistory(parent: Registry, child: Registry, prior: Version, v: Version)
    requires AllInserted(parent.operations, child.operations, prior, v)
    requires child.endpoints == parent.endpoints
    requires forall i :: 0 <= i < |parent.endpoints| ==> EndpointOk(parent.endpoints[i], prior, v)
    ensures v !in parent.versions ==> KeepsHistory(parent, child)
    ensures InheritsAll(parent, child, prior, v)
  {
    hide Matches;
    forall i | 0 <= i < |parent.operations|
      ensures SameIdentity(child.operations[i], parent.operations[i])
      ensures v !in parent.versions ==>
                SameOn(parent.versions, parent.operations[i].ranges, child.operations[i].ranges)
      ensures Inherits(parent.operations[i].ranges, child.operations[i].ranges, prior, v)
    {
      assert Inserted(parent.operations[i], child.operations[i], prior, v);
    }
    forall i | 0 <= i < |parent.endpoints|
      ensures Inherits(parent.endpoints[i].variants, child.endpoints[i].variants, prior, v)
    {
      assert EndpointOk(parent.endpoints[i], prior, v);
    }
  }

  lemma {:induction false} TidyInserted(versions: seq<Version>, longer: seq<Version>, before: Operation,
                                        after: Operation, prior: Version, v: Version)
    requires Tidy(versions, before.ranges, false) && Inserted(before, after, prior, v)
    requires forall u :: u in longer <==> u in versions || u == v
    ensures Tidy(longer, after.ranges, false)
  {
    hide Matches;
    forall item | item in after.ranges ensures Known(longer, item) && AtMost(item.minimum, item.maximum) {
      assert item in before.ranges ==> Known(versions, item);
    }
    forall u | u in longer ensures SelectedOk(after.ranges, u, false) {
      assert u != v ==> SelectedOk(before.ranges, u, false);
    }
  }

  lemma {:induction false} TidyUnchanged(versions: seq<Version>, longer: seq<Version>, endpoint: Endpoint,
                                         prior: Version, v: Version)
    requires Tidy(versions, endpoint.variants, true) && EndpointOk(endpoint, prior, v)
    requires forall u :: u in longer <==> u in versions || u == v
    ensures Tidy(longer, endpoint.variants, true)
  {
    hide Matches;
    forall item | item in endpoint.variants ensures Known(longer, item) && AtMost(item.minimum, item.maximum) {
      assert Known(versions, item);
    }
    forall u | u in longer ensures SelectedOk(endpoint.variants, u, true) {
      assert u != v ==> SelectedOk(endpoint.variants, u, true);
    }
  }

  lemma {:induction false} InsertWellFormed(parent: Registry, child: Registry, prior: Version, v: Version,
                                            last: Version)
    requires WellFormed(parent) && Less(prior, v) && Less(v, last)
    requires var n := |parent.versions|;
             && n >= 2 && parent.versions[n - 2] == prior && parent.versions[n - 1] == last
             && child.versions == parent.versions[..n - 1] + [v, last]
    requires child.endpoints == parent.endpoints
    requires AllInserted(parent.operations, child.operations, prior, v)
    requires forall i :: 0 <= i < |parent.endpoints| ==> EndpointOk(parent.endpoints[i], prior, v)
    ensures WellFormed(child)
  {
    hide Inserted, EndpointOk, Tidy;
    AscendingInsert(parent.versions, v);
    forall i | 0 <= i < |child.operations| ensures Tidy(child.versions, child.operations[i].ranges, false) {
      TidyInserted(parent.versions, child.versions, parent.operations[i], child.operations[i], prior, v);
    }
    forall i | 0 <= i < |child.endpoints| ensures Tidy(child.versions, child.endpoints[i].variants, true) {
      TidyUnchanged(parent.versions, child.versions, parent.endpoints[i], prior, v);
    }
  }

  lemma {:induction false} AscendingInsert(versions: seq<Version>, v: Version)
    requires var n := |versions|; n >= 2 && Less(versions[n - 2], v) && Less(v, versions[n - 1])
    requires Ascending(versions)
    ensures var longer := versions[..|versions| - 1] + [v, versions[|versions| - 1]];
            Ascending(longer) && forall u :: u in longer <==> u in versions || u == v
  {
    var n := |versions|;
    var front, last := versions[..n - 1], versions[n - 1];
    SortedExtend(front, v);
    SortedExtend(front + [v], last);
    assert front + [v, last] == front + [v] + [last];
    assert versions == front + [last];
  }

  // ----- Appending a patch after the last release

  predicate AppendOk<T>(items: seq<Item<T>>, last: Version, point: bool) {
    items != [] && items[|items| - 1].maximum == last && (point ==> items[|items| - 1].minimum == last)
  }

  function AppendItem<T>(items: seq<Item<T>>, v: Version): seq<Item<T>>
    requires items != []
  {
    items + [CopyFor(items[|items| - 1], v)]
  }

  /** Whatever the list, every other release is matched by the same items, and the new one by
      one item more than before, a copy of the last. */
  ghost predicate Appended<T>(before: seq<Item<T>>, after: seq<Item<T>>, v: Version)
    requires before != []
  {
    var item := CopyFor(before[|before| - 1], v);
    && (forall u :: u != v ==> Matches(after, u) == Matches(before, u))
    && Matches(after, v) == Matches(before, v) + [item]
    && (Matches(after, v) == [item] <==> Matches(before, v) == [])
    && after != [] && after[|after| - 1] == item
    && (forall other :: other in after ==> other in before || other == item)
  }

  lemma {:induction false} AppendIsAppended<T>(items: seq<Item<T>>, v: Version)
    requires items != []
    ensures Appended(items, AppendItem(items, v), v)
  {
    hide Matches;
    PushPoint(items, CopyFor(items[|items| - 1], v), v);
  }

  /** The step never checks that the new release was unmatched before: it is matched once,
      as `selected` asks, if and only if it was. */
  lemma {:induction false} AppendOnceIff<T>(items: seq<Item<T>>, v: Version)
    requires items != []
    ensures |Matches(AppendItem(items, v), v)| == |Matches(items, v)| + 1
    ensures SelectedOk(AppendItem(items, v), v, false) <==> Matches(items, v) == []
  {
    AppendIsAppended(items, v);
    hide Matches;
  }

  /** A parent that passes the step and leaves the new release matched twice: its first range
      already reaches past the last release. */
  lemma {:induction false} MatchedTwice(first: Version, last: Version, v: Version, s: State)
    requires Less(first, last) && Less(last, v)
    ensures var items := [Item(first, v, s), Item(last, last, s)];
            && AppendOk(items, last, true)
            && |Matches(AppendItem(items, v), v)| == 2
            && !SelectedOk(AppendItem(items, v), v, false)
  {
    var items := [Item(first, v, s), Item(last, last, s)];
    assert items[1..] == [items[1]];
    MatchesOne(items[1], v);
    AppendOnceIff(items, v);
  }

  lemma {:induction false} AppendTidy<T>(versions: seq<Version>, items: seq<Item<T>>, last: Version, v: Version,
                                         optional: bool)
    requires Tidy(versions, items, optional) && AppendOk(items, last, false)
    requires forall u :: u in versions ==> Less(u, v)
    ensures Inherits(items, AppendItem(items, v), last, v)
    ensures Tidy(versions + [v], AppendItem(items, v), optional)
  {
    var source, item, after := items[|items| - 1], CopyFor(items[|items| - 1], v), AppendItem(items, v);
    TidyKnown(versions, items, optional);
    LastMatches(versions, items, last, optional);
    NothingAfter(versions, items, v);
    AppendIsAppended(items, v);
    assert v !in versions;
    hide Matches, Less;
    InheritsItem(items, after, source, item, last, v);
    TidyGrow(versions, items, after, v, optional);
  }

  ghost predicate AppendAllOk(parent: Registry, last: Version, pointVariants: bool) {
    && (forall i :: 0 <= i < |parent.operations| ==> AppendOk(parent.operations[i].ranges, last, true))
    && (forall i :: 0 <= i < |parent.endpoints| ==> AppendOk(parent.endpoints[i].variants, last, pointVariants))
  }

  ghost predicate OperationAppended(before: Operation, after: Operation, v: Version) {
    && SameIdentity(after, before) && before.ranges != [] && Appended(before.ranges, after.ranges, v)
  }

  ghost predicate EndpointAppended(before: Endpoint, after: Endpoint, v: Version) {
    && after.id == before.id && before.variants != [] && Appended(before.variants, after.variants, v)
  }

  /** The result of the step, for any parent that passes it. */
  ghost predicate AppendStep(parent: Registry, child: Registry, v: Version) {
    && child.versions == parent.versions + [v]
    && |child.operations| == |parent.operations| && |child.endpoints| == |parent.endpoints|
    && (forall i :: 0 <= i < |parent.operations| ==>
          OperationAppended(parent.operations[i], child.operations[i], v))
    && (forall i :: 0 <= i < |parent.endpoints| ==>
          EndpointAppended(parent.endpoints[i], child.endpoints[i], v))
  }

  /** `build` of the 2.7.1 step (`pointVariants` false) and of the 2.7.2 step (true). History
      holds for every parent that passes. That the new release is matched once needs a parent
      that leaves it unmatched, as every well-formed one does. */
  method AppendPatch(parent: Registry, last: Version, v: Version, pointVariants: bool) returns (r: Option<Registry>)
    ensures r.Some? <==> AppendAllOk(parent, last, pointVariants)
    ensures r.Some? ==> AppendStep(parent, r.value, v) && AllAppended(parent, r.value, v)
    ensures r.Some? && v !in parent.versions ==> KeepsHistory(parent, r.value)
    ensures r.Some? && WellFormed(parent) && Less(parent.versions[|parent.versions| - 1], v) ==>
              WellFormed(r.value) && InheritsAll(parent, r.value, last, v)
  {
    hide Appended, Matches, Tidy, Inherits, SameOn, Less;
    var operations: seq<Operation>, k := [], 0;
    while k < |parent.operations|
      invariant 0 <= k <= |parent.operations| && |operations| == k
      invariant forall i :: 0 <= i < k ==>
                  && AppendOk(parent.operations[i].ranges, last, true)
                  && operations[i] == AppendedOperation(parent.operations[i], v)
    {
      if !AppendOk(parent.operations[k].ranges, last, true) {
        return None;
      }
      operations, k := operations + [AppendedOperation(parent.operations[k], v)], k + 1;
    }
    var endpoints: seq<Endpoint> := [];
    k := 0;
    while k < |parent.endpoints|
      invariant 0 <= k <= |parent.endpoints| && |endpoints| == k
      invariant forall i :: 0 <= i < k ==>
                  && AppendOk(parent.endpoints[i].variants, last, pointVariants)
                  && endpoints[i] == AppendedEndpoint(parent.endpoints[i], v)
    {
      if !AppendOk(parent.endpoints[k].variants, last, pointVariants) {
        return None;
      }
      endpoints, k := endpoints + [AppendedEndpoint(parent.endpoints[k], v)], k + 1;
    }
    var child := Registry(parent.versions + [v], operations, endpoints);
    AppendDone(parent, child, v);
    if v !in parent.versions {
      AppendHistory(parent, child, v);
    }
    if WellFormed(parent) && Less(parent.versions[|parent.versions| - 1], v) {
      AppendWellFormed(parent, child, last, v);
    }
    r := Some(child);
  }

  function AppendedOperation(operation: Operation, v: Version): Operation
    requires operation.ranges != []
  {
    operation.(ranges := AppendItem(operation.ranges, v))
  }

  function AppendedEndpoint(endpoint: Endpoint, v: Version): Endpoint
    requires endpoint.variants != []
  {
    endpoint.(variants := AppendItem(endpoint.variants, v))
  }

  ghost predicate AllAppended(parent: Registry, child: Registry, v: Version) {
    && |child.operations| == |parent.operations| && |child.endpoints| == |parent.endpoints|
    && (forall i :: 0 <= i < |parent.operations| ==>
          parent.operations[i].ranges != [] && child.operations[i] == AppendedOperation(parent.operations[i], v))
    && (forall i :: 0 <= i < |parent.endpoints| ==>
          parent.endpoints[i].variants != [] && child.endpoints[i] == AppendedEndpoint(parent.endpoints[i], v))
  }

  lemma {:induction false} AppendDone(parent: Registry, child: Registry, v: Version)
    requires child.versions == parent.versions + [v] && AllAppended(parent, child, v)
    ensures AppendStep(parent, child, v)
  {
    hide Appended, AppendItem;
    forall i | 0 <= i < |parent.operations| ensures OperationAppended(parent.operations[i], child.operations[i], v) {
      AppendIsAppended(parent.operations[i].ranges, v);
    }
    forall i | 0 <= i < |parent.endpoints| ensures EndpointAppended(parent.endpoints[i], child.endpoints[i], v) {
      AppendIsAppended(parent.endpoints[i].variants, v);
    }
  }

  lemma {:induction false} AppendHistory(parent: Registry, child: Registry, v: Version)
    requires AppendStep(parent, child, v) && v !in parent.versions
    ensures KeepsHistory(parent, child)
  {
    hide Matches;
    forall i | 0 <= i < |parent.operations|
      ensures SameOn(parent.versions, parent.operations[i].ranges, child.operations[i].ranges)
    {
      assert OperationAppended(parent.operations[i], child.operations[i], v);
    }
    forall i | 0 <= i < |parent.endpoints|
      ensures SameOn(parent.versions, parent.endpoints[i].variants, child.endpoints[i].variants)
    {
      assert EndpointAppended(parent.endpoints[i], child.endpoints[i], v);
    }
  }

  lemma {:induction false} AppendWellFormed(parent: Registry, child: Registry, last: Version, v: Version)
    requires WellFormed(parent) && Less(parent.versions[|parent.versions| - 1], v)
    requires child.versions == parent.versions + [v] && AllAppended(parent, child, v)
    requires AppendAllOk(parent, last, false)
    ensures WellFormed(child) && InheritsAll(parent, child, last, v)
  {
    hide Tidy, Inherits, AppendItem;
    SortedExtend(parent.versions, v);
    forall i | 0 <= i < |parent.operations|
      ensures Tidy(child.versions, child.operations[i].ranges, false)
      ensures Inherits(parent.operations[i].ranges, child.operations[i].ranges, last, v)
    {
      AppendTidy(parent.versions, parent.operations[i].ranges, last, v, false);
    }
    forall i | 0 <= i < |parent.endpoints|
      ensures Tidy(child.versions, child.endpoints[i].variants, true)
      ensures Inherits(parent.endpoints[i].variants, child.endpoints[i].variants, last, v)
    {
      AppendTidy(parent.versions, parent.endpoints[i].variants, last, v, true);
    }
  }
}
