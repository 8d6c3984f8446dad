/** Appending a minor release with its own evidence: old operations get one more range, new
    routes become operations, and the last variant of every endpoint is stretched
    (scripts/generate_openbao_2_7_candidate.py, build). */
module MinorRelease {
  import opened Text
  import opened Versions
  import opened Ranges
  import opened Registries
  import opened Patches

  const EXCLUDED_PREFIXES := ["/auth/ldap/", "/auth/kerberos/", "/auth/radius/", "/ldap/"]
  const INSPECTION := "sys.internal-request-inspection"
  const INSPECT_ROOT := Route("GET", "/sys/internal/inspect/request/root")
  const INSPECT := Route("GET", "/sys/internal/inspect/request")

  predicate Excluded(path: string) {
    exists i :: 0 <= i < |EXCLUDED_PREFIXES| && StartsWith(path, EXCLUDED_PREFIXES[i])
  }

  /** The evidence for the new minor: routes its contracts document, those tagged in its
      documentation, and the routes that exist at run time only from it on. */
  datatype Evidence = Evidence(documented: set<Route>, tagged: set<Route>, runtime: set<Route>)

  function MinorState(route: Route, disposition: string, e: Evidence): State {
    if Excluded(route.path) || route !in e.documented then State("unavailable", "none")
    else if disposition == "security-blocked" then State("security-blocked", "tagged-documentation")
    else
      var locked := route in e.runtime || route !in e.tagged;
      State("documented", if locked then "locked-openapi" else "tagged-documentation")
  }

  function Routes(operations: seq<Operation>): set<Route> {
    set operation | operation in operations :: operation.route
  }

  /** An existing operation, extended by the new release. */
  function MinorOperation(operation: Operation, v: Version, e: Evidence): Operation {
    operation.(ranges := operation.ranges + [Item(v, v, MinorState(operation.route, operation.disposition, e))])
  }

  /** A route that did not exist before: unavailable in every earlier release. `name` gives
      a route's stable identifier. */
  function NewOperation(route: Route, versions: seq<Version>, v: Version, e: Evidence, name: Route -> string): Operation
    requires versions != []
  {
    Operation(name(route), route, "typed-gated",
              [Item(versions[0], versions[|versions| - 1], State("unavailable", "none")),
               Item(v, v, MinorState(route, "typed-gated", e))])
  }

  function StretchLast(variants: seq<Item<string>>, v: Version): seq<Item<string>>
    requires variants != []
  {
    variants[..|variants| - 1] + [variants[|variants| - 1].(maximum := v)]
  }

  function InspectionEndpoint(v: Version, name: Route -> string): Endpoint {
    Endpoint(INSPECTION, [Item(CORRECTED, CORRECTED, name(INSPECT_ROOT)), Item(v, v, name(INSPECT))])
  }

  /** The result of the step, for any registry that passes it. */
  ghost predicate MinorStep(active: Registry, child: Registry, v: Version, e: Evidence, name: Route -> string) {
    && active.versions != [] && child.versions == active.versions + [v]
    && MinorOperationsStep(active, child.operations, v, e, name)
    && Routes(child.operations) == Routes(active.operations) + e.documented
    && MinorEndpointsStep(active, child.endpoints, v, name)
  }

  ghost predicate MinorOperationsStep(active: Registry, operations: seq<Operation>, v: Version, e: Evidence,
                                      name: Route -> string)
    requires active.versions != []
  {
    && |operations| >= |active.operations|
    && (forall i :: 0 <= i < |active.operations| ==> operations[i] == MinorOperation(active.operations[i], v, e))
    && (forall i :: |active.operations| <= i < |operations| ==>
          && operations[i].route in e.runtime
          && operations[i] == NewOperation(operations[i].route, active.versions, v, e, name))
  }

  ghost predicate MinorEndpointsStep(active: Registry, endpoints: seq<Endpoint>, v: Version, name: Route -> string)
    requires active.versions != []
  {
    && |endpoints| == |active.endpoints| + 1 && endpoints[|active.endpoints|] == InspectionEndpoint(v, name)
    && forall i :: 0 <= i < |active.endpoints| ==>
         && AppendOk(active.endpoints[i].variants, active.versions[|active.versions| - 1], false)
         && endpoints[i] == active.endpoints[i].(variants := StretchLast(active.endpoints[i].variants, v))
  }

  // ----- One operation

  /** Whatever the ranges, every other release is matched by the same items, and the new one
      by one item more, with the state the evidence gives it. */
  lemma {:induction false} MinorOperationMatches(operation: Operation, v: Version, e: Evidence)
    ensures var after := MinorOperation(operation, v, e).ranges;
            && (forall u :: u != v ==> Matches(after, u) == Matches(operation.ranges, u))
            && Matches(after, v)
                 == Matches(operation.ranges, v) + [Item(v, v, MinorState(operation.route, operation.disposition, e))]
  {
    hide Matches, MinorState;
    PushPoint(operation.ranges, Item(v, v, MinorState(operation.route, operation.disposition, e)), v);
  }

  lemma {:induction false} MinorOperationTidy(versions: seq<Version>, operation: Operation, v: Version, e: Evidence)
    requires Tidy(versions, operation.ranges, false)
    requires forall u :: u in versions ==> Less(u, v)
    ensures var after := MinorOperation(operation, v, e);
            && Matches(after.ranges, v) == [Item(v, v, MinorState(operation.route, operation.disposition, e))]
            && Tidy(versions + [v], after.ranges, false)
  {
    TidyKnown(versions, operation.ranges, false);
    NothingAfter(versions, operation.ranges, v);
    MinorOperationMatches(operation, v, e);
    assert v !in versions;
    hide Matches, Less, MinorState;
    TidyGrow(versions, operation.ranges, MinorOperation(operation, v, e).ranges, v, false);
  }

  /** One range over the whole list is tidy. */
  lemma {:induction false} WholeTidy(versions: seq<Version>, state: State)
    requires versions != [] && Ascending(versions)
    ensures Tidy(versions, [Item(versions[0], versions[|versions| - 1], state)], false)
    ensures forall u :: u in versions ==> Lookup([Item(versions[0], versions[|versions| - 1], state)], u) == Some(state)
  {
    var n := |versions| - 1;
    var whole := Item(versions[0], versions[n], state);
    forall u | u in versions ensures Matches([whole], u) == [whole] {
      var i :| 0 <= i < |versions| && versions[i] == u;
      OrderIsPosition(versions, 0, i);
      OrderIsPosition(versions, i, n);
      MatchesOne(whole, u);
    }
    OrderIsPosition(versions, 0, n);
  }

  lemma {:induction false} NewIsMinor(route: Route, versions: seq<Version>, v: Version, e: Evidence,
                                      name: Route -> string)
    requires versions != []
    ensures var whole := [Item(versions[0], versions[|versions| - 1], State("unavailable", "none"))];
            NewOperation(route, versions, v, e, name)
              == MinorOperation(Operation(name(route), route, "typed-gated", whole), v, e)
  {
    hide MinorState;
    var whole := Item(versions[0], versions[|versions| - 1], State("unavailable", "none"));
    var item := Item(v, v, MinorState(route, "typed-gated", e));
    assert [whole] + [item] == [whole, item];
  }

  lemma {:induction false} NewOperationTidy(versions: seq<Version>, route: Route, v: Version, e: Evidence,
                                            name: Route -> string)
    requires versions != [] && Ascending(versions) && forall u :: u in versions ==> Less(u, v)
    ensures var after := NewOperation(route, versions, v, e, name);
            && (forall u :: u in versions ==> Lookup(after.ranges, u) == Some(State("unavailable", "none")))
            && Matches(after.ranges, v) == [Item(v, v, MinorState(route, "typed-gated", e))]
            && Tidy(versions + [v], after.ranges, false)
  {
    hide Matches, MinorState, Less, Tidy;
    var state := State("unavailable", "none");
    var sofar := Operation(name(route), route, "typed-gated", [Item(versions[0], versions[|versions| - 1], state)]);
    WholeTidy(versions, state);
    NewIsMinor(route, versions, v, e, name);
    MinorOperationMatches(sofar, v, e);
    MinorOperationTidy(versions, sofar, v, e);
    assert v !in versions by { Later(versions, v); }
  }

  lemma {:induction false} Later(versions: seq<Version>, v: Version)
    requires forall u :: u in versions ==> Less(u, v)
    ensures v !in versions
  {
  }

  // ----- One endpoint

  lemma {:induction false} SwapLast(front: seq<Item<string>>, final: Item<string>, stretched: Item<string>, u: Version)
    requires stretched.value == final.value
    ensures (Covers(stretched, u) <==> Covers(final, u)) ==>
              && |Matches(front + [stretched], u)| == |Matches(front + [final], u)|
              && Lookup(front + [stretched], u) == Lookup(front + [final], u)
    ensures Covers(stretched, u) && !Covers(final, u) ==>
              Matches(front + [stretched], u) == Matches(front + [final], u) + [stretched]
  {
    MatchesPush(front, final, u);
    MatchesPush(front, stretched, u);
  }

  /** Whatever the variants, a release outside the stretch keeps its route, and the new one
      is matched by one variant more, with the last route. */
  lemma {:induction false} StretchMatches(variants: seq<Item<string>>, last: Version, v: Version)
    requires AppendOk(variants, last, false) && Less(last, v)
    ensures var after, final := StretchLast(variants, v), variants[|variants| - 1];
            && (forall u :: AtMost(u, last) || Less(v, u) ==>
                  |Matches(after, u)| == |Matches(variants, u)| && Lookup(after, u) == Lookup(variants, u))
            && (AtMost(final.minimum, v) ==>
                  Matches(after, v) == Matches(variants, v) + [final.(maximum := v)])
  {
    var front, final := variants[..|variants| - 1], variants[|variants| - 1];
    var stretched, after := final.(maximum := v), StretchLast(variants, v);
    assert variants == front + [final] && after == front + [stretched];
    forall u | AtMost(u, last) || Less(v, u) ensures Covers(stretched, u) <==> Covers(final, u) {}
    assert AtMost(final.minimum, v) ==> Covers(stretched, v) && !Covers(final, v);
    hide Less, AtMost, Covers, Matches, Lookup;
    forall u | AtMost(u, last) || Less(v, u)
      ensures |Matches(after, u)| == |Matches(variants, u)| && Lookup(after, u) == Lookup(variants, u)
    {
      SwapLast(front, final, stretched, u);
    }
    SwapLast(front, final, stretched, v);
  }

  lemma {:induction false} StretchTidy(versions: seq<Version>, variants: seq<Item<string>>, last: Version, v: Version)
    requires Tidy(versions, variants, true) && AppendOk(variants, last, false)
    requires forall u :: u in versions ==> AtMost(u, last) && Less(u, v)
    ensures Inherits(variants, StretchLast(variants, v), last, v)
    ensures Tidy(versions + [v], StretchLast(variants, v), true)
    ensures var final := variants[|variants| - 1];
            Matches(variants, last) == [final] && Matches(StretchLast(variants, v), v) == [final.(maximum := v)]
  {
    hide Less, AtMost, Covers, Matches, Tidy, Inherits;
    var final, after := variants[|variants| - 1], StretchLast(variants, v);
    FinalBounds(versions, variants, last, v);
    TidyKnown(versions, variants, true);
    LastMatches(versions, variants, last, true);
    NothingAfter(versions, variants, v);
    StretchMatches(variants, last, v);
    assert Matches(after, v) == [final.(maximum := v)];
    forall u | u in versions ensures |Matches(after, u)| == |Matches(variants, u)| {}
    InheritsItem(variants, after, final, final.(maximum := v), last, v);
    TidyGrow(versions, variants, after, v, true);
  }

  lemma {:induction false} FinalBounds(versions: seq<Version>, variants: seq<Item<string>>, last: Version, v: Version)
    requires Tidy(versions, variants, true) && AppendOk(variants, last, false)
    requires forall u :: u in versions ==> Less(u, v)
    ensures last in versions && Less(last, v)
    ensures var final := variants[|variants| - 1]; AtMost(final.minimum, v) && final.minimum in versions + [v]
  {
    assert Known(versions, variants[|variants| - 1]);
  }

  lemma {:induction false} InspectionTidy(versions: seq<Version>, v: Version, name: Route -> string)
    requires CORRECTED in versions && forall u :: u in versions ==> Less(u, v)
    ensures Tidy(versions + [v], InspectionEndpoint(v, name).variants, true)
  {
    var items := InspectionEndpoint(v, name).variants;
    assert Less(CORRECTED, v);
    forall u ensures SelectedOk(items, u, true) {
      InspectionMatches(v, name, u);
    }
  }

  /** Request inspection exists at its two releases and nowhere else. */
  lemma {:induction false} InspectionMatches(v: Version, name: Route -> string, u: Version)
    requires v != CORRECTED
    ensures var items := InspectionEndpoint(v, name).variants;
            Matches(items, u) == if u == CORRECTED then [items[0]] else if u == v then [items[1]] else []
  {
    var items := InspectionEndpoint(v, name).variants;
    assert items == [items[0]] + [items[1]];
    PointCovers(items[0], CORRECTED, u);
    PointCovers(items[1], v, u);
    MatchesAppend([items[0]], [items[1]], u);
    MatchesOne(items[0], u);
    MatchesOne(items[1], u);
  }

  // ----- The loops

  method MinorOperations(active: Registry, v: Version, e: Evidence, name: Route -> string)
    returns (operations: seq<Operation>)
    requires active.versions != []
    ensures MinorOperationsStep(active, operations, v, e, name)
    ensures Routes(operations) == Routes(active.operations) + e.runtime
    ensures |operations| == |active.operations| + |e.runtime|
  {
    operations := [];
    var k := 0;
    hide NewOperation, Routes;
    while k < |active.operations|
      invariant 0 <= k <= |active.operations| && |operations| == k
      invariant forall i :: 0 <= i < k ==> operations[i] == MinorOperation(active.operations[i], v, e)
    {
      operations, k := operations + [MinorOperation(active.operations[k], v, e)], k + 1;
    }
    SameRoutes(active.operations, operations);
    hide MinorOperation;
    var added := NewOperations(active.versions, v, e, name);
    RoutesAppend(operations, added);
    operations := operations + added;
  }

  /** One operation for each of the run-time routes. */
  method NewOperations(versions: seq<Version>, v: Version, e: Evidence, name: Route -> string)
    returns (operations: seq<Operation>)
    requires versions != []
    ensures forall i :: 0 <= i < |operations| ==>
              && operations[i].route in e.runtime
              && operations[i] == NewOperation(operations[i].route, versions, v, e, name)
    ensures Routes(operations) == e.runtime && |operations| == |e.runtime|
  {
    hide NewOperation, Routes;
    operations := [];
    NoRoutes();
    var left := e.runtime;
    while left != {}
      invariant left <= e.runtime && |operations| == |e.runtime| - |left|
      invariant forall i :: 0 <= i < |operations| ==>
                  && operations[i].route in e.runtime
                  && operations[i] == NewOperation(operations[i].route, versions, v, e, name)
      invariant Routes(operations) == e.runtime - left
      decreases left
    {
      var route :| route in left;
      var operation := NewOperation(route, versions, v, e, name);
      NewOperationRoute(route, versions, v, e, name);
      RoutesPush(operations, operation);
      operations, left := operations + [operation], left - {route};
    }
  }

  lemma {:induction false} NoRoutes()
    ensures Routes([]) == {}
  {
  }

  lemma {:induction false} RoutesAppend(a: seq<Operation>, b: seq<Operation>)
    ensures Routes(a + b) == Routes(a) + Routes(b)
  {
    forall o | o in a || o in b ensures o in a + b {}
  }

  lemma {:induction false} NewOperationRoute(route: Route, versions: seq<Version>, v: Version, e: Evidence,
                                             name: Route -> string)
    requires versions != []
    ensures NewOperation(route, versions, v, e, name).route == route
  {
  }

  lemma {:induction false} RoutesPush(operations: seq<Operation>, operation: Operation)
    ensures Routes(operations + [operation]) == Routes(operations) + {operation.route}
  {
    forall o | o in operations ensures o in operations + [operation] {}
    assert operation in operations + [operation];
  }

  lemma {:induction false} SameRoutes(a: seq<Operation>, b: seq<Operation>)
    requires |a| == |b| && forall i :: 0 <= i < |a| ==> a[i].route == b[i].route
    ensures Routes(a) == Routes(b)
  {
    forall o | o in a ensures o.route in Routes(b) {
      var i :| 0 <= i < |a| && a[i] == o;
      assert b[i] in b;
    }
    forall o | o in b ensures o.route in Routes(a) {
      var i :| 0 <= i < |b| && b[i] == o;
      assert a[i] in a;
    }
  }

  ghost predicate MinorOk(active: Registry, e: Evidence) {
    && active.versions != []
    && e.documented - Routes(active.operations) == e.runtime
    && forall i :: 0 <= i < |active.endpoints| ==>
         AppendOk(active.endpoints[i].variants, active.versions[|active.versions| - 1], false)
  }

  /** Every operation is matched once by the new release, with the evidence's state. */
  ghost predicate MinorStates(operations: seq<Operation>, v: Version, e: Evidence) {
    forall i :: 0 <= i < |operations| ==>
      Matches(operations[i].ranges, v)
        == [Item(v, v, MinorState(operations[i].route, operations[i].disposition, e))]
  }

  /** Operations the minor release introduces are unavailable in every earlier release. */
  ghost predicate NewIdentities(active: Registry, child: Registry, e: Evidence) {
    forall i :: |active.operations| <= i < |child.operations| ==>
      && child.operations[i].route in e.runtime
      && forall u :: u in active.versions ==>
           Lookup(child.operations[i].ranges, u) == Some(State("unavailable", "none"))
  }

  ghost predicate EndpointsInherit(active: Registry, child: Registry, v: Version)
    requires active.versions != [] && |child.endpoints| >= |active.endpoints|
  {
    forall i :: 0 <= i < |active.endpoints| ==>
      Inherits(active.endpoints[i].variants, child.endpoints[i].variants, active.versions[|active.versions| - 1], v)
  }

  /** The release list is ascending and the new release comes after it. */
  ghost predicate Extends(active: Registry, v: Version) {
    active.versions != [] && Ascending(active.versions) && Less(active.versions[|active.versions| - 1], v)
  }

  /** `build` of the 2.7 candidate. Existing operations come first; the source sorts all of
      them by identifier. Operations keep their history in any registry, endpoints as soon
      as the release list ascends; the rest needs ranges that are well formed. */
  method AppendMinor(active: Registry, v: Version, e: Evidence, name: Route -> string) returns (r: Option<Registry>)
    ensures r.Some? <==> MinorOk(active, e)
    ensures r.Some? ==> MinorStep(active, r.value, v, e, name)
    ensures r.Some? ==> |r.value.operations| == |active.operations| + |e.runtime|
    ensures r.Some? && v !in active.versions ==> OperationsKept(active, r.value)
    ensures r.Some? && Extends(active, v) ==> KeepsHistory(active, r.value) && NewIdentities(active, r.value, e)
    ensures r.Some? && Extends(active, v) && WellFormed(active) ==>
              && MinorStates(r.value.operations, v, e)
              && EndpointsInherit(active, r.value, v)
              && (CORRECTED in active.versions ==> WellFormed(r.value))
  {
    hide MinorState, Tidy, SameOn, Inherits, Matches, WellFormed, Routes, Ascending, Less;
    if active.versions == [] || e.documented - Routes(active.operations) != e.runtime {
      return None;
    }
    var operations := MinorOperations(active, v, e, name);
    var okEndpoints, endpoints := MinorEndpoints(active, v, name);
    if !okEndpoints {
      return None;
    }
    var child := Registry(active.versions + [v], operations, endpoints);
    AllRoutes(active, e);
    if v !in active.versions {
      MinorOperationsKept(active, child, v, e, name);
    }
    if Extends(active, v) {
      MinorHistory(active, child, v, e, name);
      if WellFormed(active) {
        MinorWellFormed(active, child, v, e, name);
      }
    }
    r := Some(child);
  }

  lemma {:induction false} AllRoutes(active: Registry, e: Evidence)
    requires e.documented - Routes(active.operations) == e.runtime
    ensures Routes(active.operations) + e.runtime == Routes(active.operations) + e.documented
  {
    hide Routes;
  }

  method MinorEndpoints(active: Registry, v: Version,
                        name: Route -> string) returns (ok: bool, endpoints: seq<Endpoint>)
    requires active.versions != []
    ensures ok <==> forall i :: 0 <= i < |active.endpoints| ==>
              AppendOk(active.endpoints[i].variants, active.versions[|active.versions| - 1], false)
    ensures ok ==> MinorEndpointsStep(active, endpoints, v, name)
  {
    endpoints := [];
    var k := 0;
    while k < |active.endpoints|
      invariant 0 <= k <= |active.endpoints| && |endpoints| == k
      invariant forall i :: 0 <= i < k ==>
                  && AppendOk(active.endpoints[i].variants, active.versions[|active.versions| - 1], false)
                  && endpoints[i] == active.endpoints[i].(variants := StretchLast(active.endpoints[i].variants, v))
    {
      var variants := active.endpoints[k].variants;
      if !AppendOk(variants, active.versions[|active.versions| - 1], false) {
        return false, endpoints;
      }
      endpoints := endpoints + [active.endpoints[k].(variants := StretchLast(variants, v))];
      k := k + 1;
    }
    endpoints := endpoints + [InspectionEndpoint(v, name)];
    ok := true;
  }

  // ----- What the step keeps

  lemma {:induction false} MinorOperationsKept(active: Registry, child: Registry, v: Version, e: Evidence,
                                               name: Route -> string)
    requires active.versions != [] && v !in active.versions
    requires MinorOperationsStep(active, child.operations, v, e, name)
    ensures OperationsKept(active, child)
  {
    hide Matches, MinorState;
    forall i | 0 <= i < |active.operations|
      ensures SameIdentity(child.operations[i], active.operations[i])
      ensures SameOn(active.versions, active.operations[i].ranges, child.operations[i].ranges)
    {
      MinorOperationMatches(active.operations[i], v, e);
    }
  }

  lemma {:induction false} MinorHistory(active: Registry, child: Registry, v: Version, e: Evidence,
                                        name: Route -> string)
    requires Extends(active, v) && MinorOperationsStep(active, child.operations, v, e, name)
    requires MinorEndpointsStep(active, child.endpoints, v, name)
    ensures KeepsHistory(active, child) && NewIdentities(active, child, e)
  {
    var last := active.versions[|active.versions| - 1];
    SortedExtend(active.versions, v);
    Later(active.versions, v);
    LastIsGreatest(active.versions);
    MinorOperationsKept(active, child, v, e, name);
    hide Matches, Lookup, MinorState, Ascending, Tidy;
    forall i | 0 <= i < |active.endpoints|
      ensures SameOn(active.versions, active.endpoints[i].variants, child.endpoints[i].variants)
    {
      StretchMatches(active.endpoints[i].variants, last, v);
    }
    forall i | |active.operations| <= i < |child.operations|
      ensures forall u :: u in active.versions ==>
                Lookup(child.operations[i].ranges, u) == Some(State("unavailable", "none"))
    {
      NewOperationTidy(active.versions, child.operations[i].route, v, e, name);
    }
  }

  lemma {:induction false} MinorWellFormed(active: Registry, child: Registry, v: Version, e: Evidence,
                                           name: Route -> string)
    requires Extends(active, v) && WellFormed(active) && child.versions == active.versions + [v]
    requires MinorOperationsStep(active, child.operations, v, e, name)
    requires MinorEndpointsStep(active, child.endpoints, v, name)
    ensures MinorStates(child.operations, v, e) && EndpointsInherit(active, child, v)
    ensures CORRECTED in active.versions ==> WellFormed(child)
  {
    var last := active.versions[|active.versions| - 1];
    SortedExtend(active.versions, v);
    LastIsGreatest(active.versions);
    if CORRECTED in active.versions {
      InspectionTidy(active.versions, v, name);
    }
    hide Tidy, Matches, MinorState, Ascending, StretchLast, Less, AtMost, Inherits, InspectionEndpoint;
    forall i | 0 <= i < |child.operations|
      ensures Tidy(child.versions, child.operations[i].ranges, false)
      ensures Matches(child.operations[i].ranges, v)
                == [Item(v, v, MinorState(child.operations[i].route, child.operations[i].disposition, e))]
    {
      if i < |active.operations| {
        MinorOperationTidy(active.versions, active.operations[i], v, e);
      } else {
        NewOperationTidy(active.versions, child.operations[i].route, v, e, name);
      }
    }
    forall i | 0 <= i < |active.endpoints|
      ensures Tidy(child.versions, child.endpoints[i].variants, true)
      ensures Inherits(active.endpoints[i].variants, child.endpoints[i].variants, last, v)
    {
      StretchTidy(active.versions, active.endpoints[i].variants, last, v);
    }
  }
}
