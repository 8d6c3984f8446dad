/** The whole chain of candidate registries: a minor release on the active registry, two
    patches inserted before it on one branch, two appended after it on the other, and the
    merge (scripts/generate_openbao_2_7_candidate.py, _2_6_4_, _2_6_5_, _2_7_1_ and
    _2_7_2_candidate.py, and generate_openbao_patch_registry.py). */
module Chain {
  import opened Text
  import opened Versions
  import opened Ranges
  import opened Registries
  import opened Patches
  import opened MinorRelease
  import opened Merge

  /** The releases of the chain: `prior` and `pivot` end the common parent, `i1` and `i2` are
      inserted between them, `a1` and `a2` appended after them. */
  datatype Plan = Plan(prior: Version, i1: Version, i2: Version, pivot: Version, a1: Version, a2: Version)

  ghost predicate Ordered(p: Plan) {
    Less(p.prior, p.i1) && Less(p.i1, p.i2) && Less(p.i2, p.pivot) && Less(p.pivot, p.a1) && Less(p.a1, p.a2)
  }

  /** The parent's releases are `base` and the pivot, and `base` ends with `prior`. */
  ghost predicate Fits(p: Plan, parent: Registry, base: seq<Version>) {
    Ordered(p) && base != [] && base[|base| - 1] == p.prior && parent.versions == base + [p.pivot]
  }

  lemma {:induction false} PlanDisjoint(p: Plan, parent: Registry, base: seq<Version>)
    requires Fits(p, parent, base) && Ascending(parent.versions)
    ensures forall u :: u in base ==> Less(u, p.pivot) && AtMost(u, p.prior)
    ensures forall u :: u in parent.versions ==>
              u != p.i1 && u != p.i2 && AtMost(u, p.pivot) && Less(u, p.a1) && Less(u, p.a2)
    ensures Ascending(parent.versions + [p.a1, p.a2]) && Ascending(base)
    ensures p.a1 != p.a2 && p.i1 != p.i2
  {
    var n := |base| - 1;
    assert base == parent.versions[..n + 1];
    LastIsGreatest(base);
    LastIsGreatest(parent.versions);
    SortedExtend(parent.versions, p.a1);
    SortedExtend(parent.versions + [p.a1], p.a2);
    assert parent.versions + [p.a1] + [p.a2] == parent.versions + [p.a1, p.a2];
    forall u | u in base ensures Less(u, p.pivot) {
      var i :| 0 <= i <= n && base[i] == u;
      assert parent.versions[i] == u;
    }
  }

  // ----- Branches from one parent always merge

  /** Two appends leave a copy of the last item at each new release. */
  lemma {:induction false} AppendedTwice<T>(items: seq<Item<T>>, middle: seq<Item<T>>, right: seq<Item<T>>, a1: Version,
                                            a2: Version)
    requires items != [] && Appended(items, middle, a1) && Appended(middle, right, a2) && a1 != a2
    requires Matches(items, a1) == [] && Matches(items, a2) == []
    ensures var final := items[|items| - 1];
            Matches(right, a1) == [CopyFor(final, a1)] && Matches(right, a2) == [CopyFor(final, a2)]
    ensures forall u :: u != a1 && u != a2 ==> Matches(right, u) == Matches(items, u)
  {
    hide Matches;
  }

  lemma {:induction false} OwnCopy<T>(items: seq<Item<T>>, item: Item<T>, v: Version, optional: bool)
    requires Matches(items, v) == [CopyFor(item, v)]
    ensures SelectedOk(items, v, optional) && OwnRange(items, v)
  {
    hide Matches;
  }

  lemma {:induction false} UnmatchedLater<T>(versions: seq<Version>, items: seq<Item<T>>, optional: bool, v: Version)
    requires Tidy(versions, items, optional) && forall u :: u in versions ==> Less(u, v)
    ensures Matches(items, v) == [] && v !in versions
  {
    TidyKnown(versions, items, optional);
    NothingAfter(versions, items, v);
  }

  /** One list: whatever two insertions and two appends made of it, they agree. */
  lemma {:induction false} ItemsAgree<T>(p: Plan, versions: seq<Version>, items: seq<Item<T>>, left: seq<Item<T>>,
                                         middle: seq<Item<T>>, right: seq<Item<T>>, optional: bool)
    requires Tidy(versions, items, optional) && p.a1 != p.a2
    requires forall u :: u in versions ==> u != p.i1 && u != p.i2
    requires forall u :: u in versions ==> Less(u, p.a1)
    requires forall u :: u in versions ==> Less(u, p.a2)
    requires forall u :: u != p.i1 && u != p.i2 ==> Matches(left, u) == Matches(items, u)
    requires items != [] && Appended(items, middle, p.a1) && Appended(middle, right, p.a2)
    ensures Agree(left, right, versions, [p.a1, p.a2], optional)
  {
    hide Appended, CopyFor, Matches, Less, Tidy, OwnRange, SelectedOk;
    UnmatchedLater(versions, items, optional, p.a1);
    UnmatchedLater(versions, items, optional, p.a2);
    AppendedTwice(items, middle, right, p.a1, p.a2);
    OwnCopy(right, items[|items| - 1], p.a1, optional);
    OwnCopy(right, items[|items| - 1], p.a2, optional);
    forall u | u in versions
      ensures SelectedOk(left, u, optional) && SelectedOk(right, u, optional) && Matches(left, u) == Matches(right, u)
    {
      TidySelected(versions, items, optional, u);
      SelectedSame(items, left, u, optional);
      SelectedSame(items, right, u, optional);
    }
  }

  lemma {:induction false} TidySelected<T>(versions: seq<Version>, items: seq<Item<T>>, optional: bool, u: Version)
    requires Tidy(versions, items, optional) && u in versions
    ensures SelectedOk(items, u, optional)
  {
  }

  lemma {:induction false} SelectedSame<T>(a: seq<Item<T>>, b: seq<Item<T>>, u: Version, optional: bool)
    requires Matches(a, u) == Matches(b, u) && SelectedOk(a, u, optional)
    ensures SelectedOk(b, u, optional)
  {
  }

  /** If two insertions and two appends from one well-formed parent succeed, the merge does
      not refuse their results. */
  lemma {:induction false} BranchesCombine(p: Plan, parent: Registry, base: seq<Version>, l1: Registry, l2: Registry,
                                           r1: Registry, r2: Registry)
    requires WellFormed(parent) && Fits(p, parent, base)
    requires InsertStep(parent, l1, p.prior, p.i1, p.pivot) && InsertStep(l1, l2, p.i1, p.i2, p.pivot)
    requires AppendStep(parent, r1, p.a1) && AppendStep(r1, r2, p.a2)
    ensures CombineOk(l2, r2, base, [p.i1, p.i2], p.pivot, [p.a1, p.a2])
  {
    PlanDisjoint(p, parent, base);
    ChainVersions(p, parent, base, l1, l2, r1, r2);
    hide Tidy, Matches, Appended, InsertedItems, Less, Ordered, Agree, Ascending;
    forall i | 0 <= i < |parent.operations|
      ensures SameIdentity(l2.operations[i], r2.operations[i])
      ensures Agree(l2.operations[i].ranges, r2.operations[i].ranges, base + [p.pivot], [p.a1, p.a2], false)
    {
      assert Inserted(parent.operations[i], l1.operations[i], p.prior, p.i1);
      assert Inserted(l1.operations[i], l2.operations[i], p.i1, p.i2);
      assert OperationAppended(parent.operations[i], r1.operations[i], p.a1);
      assert OperationAppended(r1.operations[i], r2.operations[i], p.a2);
      InsertedTwice(p, parent.operations[i].ranges, l1.operations[i].ranges, l2.operations[i].ranges);
      ItemsAgree(p, parent.versions, parent.operations[i].ranges, l2.operations[i].ranges, r1.operations[i].ranges,
                 r2.operations[i].ranges, false);
    }
    forall i | 0 <= i < |parent.endpoints|
      ensures l2.endpoints[i].id == r2.endpoints[i].id
      ensures Agree(l2.endpoints[i].variants, r2.endpoints[i].variants, base + [p.pivot], [p.a1, p.a2], true)
    {
      assert EndpointAppended(parent.endpoints[i], r1.endpoints[i], p.a1);
      assert EndpointAppended(r1.endpoints[i], r2.endpoints[i], p.a2);
      ItemsAgree(p, parent.versions, parent.endpoints[i].variants, parent.endpoints[i].variants,
                 r1.endpoints[i].variants, r2.endpoints[i].variants, true);
    }
  }

  lemma {:induction false} InsertedTwice<T>(p: Plan, items: seq<Item<T>>, once: seq<Item<T>>, twice: seq<Item<T>>)
    requires InsertedItems(items, once, p.prior, p.i1) && InsertedItems(once, twice, p.i1, p.i2)
    ensures forall u :: u != p.i1 && u != p.i2 ==> Matches(twice, u) == Matches(items, u)
    ensures p.i1 != p.i2 ==> |Matches(twice, p.i1)| == |Matches(twice, p.i2)| == 1
    ensures forall v :: v in [p.i1, p.i2] && p.i1 != p.i2 ==> Lookup(twice, v) == Lookup(items, p.prior)
  {
    hide Matches;
  }

  lemma {:induction false} ChainVersions(p: Plan, parent: Registry, base: seq<Version>, l1: Registry, l2: Registry,
                                         r1: Registry, r2: Registry)
    requires Fits(p, parent, base)
    requires InsertStep(parent, l1, p.prior, p.i1, p.pivot) && InsertStep(l1, l2, p.i1, p.i2, p.pivot)
    requires AppendStep(parent, r1, p.a1) && AppendStep(r1, r2, p.a2)
    ensures l1.versions == base + [p.i1, p.pivot]
    ensures l2.versions == base + [p.i1, p.i2] + [p.pivot]
    ensures r2.versions == base + [p.pivot] + [p.a1, p.a2]
  {
    hide Inserted, OperationAppended, EndpointAppended;
  }

  // ----- After the minor release no step refuses

  /** Between `prior` and `last` no operation has a state, and every endpoint routes as at `prior`. */
  ghost predicate QuietGap(r: Registry, prior: Version, last: Version) {
    forall u :: Less(prior, u) && Less(u, last) ==>
      && (forall i :: 0 <= i < |r.operations| ==> Matches(r.operations[i].ranges, u) == [])
      && (forall i :: 0 <= i < |r.endpoints| ==>
            Matches(r.endpoints[i].variants, u) == Matches(r.endpoints[i].variants, prior))
  }

  /** A list over the old releases followed by a point at the new one. */
  lemma {:induction false} PointedGap(versions: seq<Version>, items: seq<Item<State>>, prior: Version, pivot: Version,
                                      state: State)
    requires Tidy(versions, items, false) && prior in versions
    requires forall u :: u in versions ==> AtMost(u, prior)
    requires Less(prior, pivot)
    ensures var all := items + [Item(pivot, pivot, state)];
            && |Matches(all, prior)| == 1 && Matches(all, prior)[0].maximum == prior
            && forall u :: Less(prior, u) && Less(u, pivot) ==> Matches(all, u) == []
  {
    var all := items + [Item(pivot, pivot, state)];
    PushPoint(items, Item(pivot, pivot, state), pivot);
    TidyKnown(versions, items, false);
    assert SelectedOk(items, prior, false);
    MatchesMembers(items, prior);
    assert Matches(items, prior)[0] in Matches(items, prior);
    forall u | Less(prior, u) && Less(u, pivot) ensures Matches(all, u) == [] {
      NothingAfter(versions, items, u);
    }
  }

  /** A stretched last variant covers the whole gap, alone. */
  lemma {:induction false} StretchedGap(versions: seq<Version>, variants: seq<Item<string>>, prior: Version,
                                        pivot: Version, u: Version)
    requires Tidy(versions, variants, true) && AppendOk(variants, prior, false)
    requires forall w :: w in versions ==> AtMost(w, prior)
    requires Less(prior, u) && Less(u, pivot)
    ensures var after := StretchLast(variants, pivot);
            Matches(after, prior) == Matches(after, u) && |Matches(after, u)| == 1
  {
    var front, final := variants[..|variants| - 1], variants[|variants| - 1];
    var stretched := final.(maximum := pivot);
    TidyKnown(versions, variants, true);
    LastMatches(versions, variants, prior, true);
    NothingAfter(versions, front, u);
    assert Known(versions, final);
    assert Covers(stretched, prior) && Covers(stretched, u);
    MatchesPush(front, stretched, prior);
    MatchesPush(front, stretched, u);
  }

  /** Everything the patch steps ask of the registry that a minor release leaves behind. */
  ghost predicate MinorShape(r: Registry, prior: Version, pivot: Version) {
    && QuietGap(r, prior, pivot)
    && (forall i :: 0 <= i < |r.operations| ==>
          && r.operations[i].ranges != []
          && r.operations[i].ranges[|r.operations[i].ranges| - 1].minimum == pivot
          && r.operations[i].ranges[|r.operations[i].ranges| - 1].maximum == pivot
          && |Matches(r.operations[i].ranges, prior)| == 1
          && Matches(r.operations[i].ranges, prior)[0].maximum == prior)
    && (forall i :: 0 <= i < |r.endpoints| ==>
          AppendOk(r.endpoints[i].variants, pivot, false) && SelectedOk(r.endpoints[i].variants, prior, true))
  }

  lemma {:induction false} MinorOperationShape(active: Registry, operation: Operation, after: Operation, prior: Version,
                                               pivot: Version, e: Evidence)
    requires WellFormed(active) && prior == active.versions[|active.versions| - 1] && Less(prior, pivot)
    requires Tidy(active.versions, operation.ranges, false) && after == MinorOperation(operation, pivot, e)
    ensures after.ranges != []
    ensures after.ranges[|after.ranges| - 1].minimum == after.ranges[|after.ranges| - 1].maximum == pivot
    ensures |Matches(after.ranges, prior)| == 1 && Matches(after.ranges, prior)[0].maximum == prior
    ensures forall u :: Less(prior, u) && Less(u, pivot) ==> Matches(after.ranges, u) == []
  {
    LastIsGreatest(active.versions);
    hide MinorState, Less, AtMost, Tidy, Matches;
    PointedGap(active.versions, operation.ranges, prior, pivot, MinorState(operation.route, operation.disposition, e));
  }

  lemma {:induction false} MinorOperationsShape(active: Registry, child: Registry, prior: Version, pivot: Version,
                                                e: Evidence, name: Route -> string, i: nat)
    requires WellFormed(active) && prior == active.versions[|active.versions| - 1] && Less(prior, pivot)
    requires MinorOperationsStep(active, child.operations, pivot, e, name) && i < |child.operations|
    ensures var ranges := child.operations[i].ranges;
            && ranges != [] && ranges[|ranges| - 1].minimum == ranges[|ranges| - 1].maximum == pivot
            && |Matches(ranges, prior)| == 1 && Matches(ranges, prior)[0].maximum == prior
            && forall u :: Less(prior, u) && Less(u, pivot) ==> Matches(ranges, u) == []
  {
    hide Tidy, Matches, Less, MinorState, MinorOperation, NewOperation, Ascending;
    if i < |active.operations| {
      MinorOperationShape(active, active.operations[i], child.operations[i], prior, pivot, e);
    } else {
      var route := child.operations[i].route;
      var state := State("unavailable", "none");
      var whole := [Item(active.versions[0], active.versions[|active.versions| - 1], state)];
      WholeTidy(active.versions, state);
      NewIsMinor(route, active.versions, pivot, e, name);
      var sofar := Operation(name(route), route, "typed-gated", whole);
      MinorOperationShape(active, sofar, child.operations[i], prior, pivot, e);
    }
  }

  lemma {:induction false} MinorEndpointsShape(active: Registry, child: Registry, prior: Version, pivot: Version,
                                               name: Route -> string, i: nat)
    requires WellFormed(active) && prior == active.versions[|active.versions| - 1] && Less(prior, pivot)
    requires CORRECTED in active.versions && prior != CORRECTED
    requires MinorEndpointsStep(active, child.endpoints, pivot, name) && i < |child.endpoints|
    ensures var variants := child.endpoints[i].variants;
            && AppendOk(variants, pivot, false) && SelectedOk(variants, prior, true)
            && forall u :: Less(prior, u) && Less(u, pivot) ==> Matches(variants, u) == Matches(variants, prior)
  {
    var variants := child.endpoints[i].variants;
    LastIsGreatest(active.versions);
    if i < |active.endpoints| {
      var before := active.endpoints[i].variants;
      StretchTidyAt(active.versions, before, prior, pivot);
      hide Matches, Less, AtMost, Tidy, Ascending;
      forall u | Less(prior, u) && Less(u, pivot) ensures Matches(variants, u) == Matches(variants, prior) {
        StretchedGap(active.versions, before, prior, pivot, u);
      }
    } else {
      assert Less(CORRECTED, prior);
      InspectionMatches(pivot, name, prior);
      forall u | Less(prior, u) && Less(u, pivot) ensures Matches(variants, u) == Matches(variants, prior) {
        InspectionMatches(pivot, name, u);
      }
    }
  }

  lemma {:induction false} StretchTidyAt(versions: seq<Version>, variants: seq<Item<string>>, prior: Version,
                                         pivot: Version)
    requires Tidy(versions, variants, true) && AppendOk(variants, prior, false) && Less(prior, pivot)
    requires forall u :: u in versions ==> AtMost(u, prior)
    ensures SelectedOk(StretchLast(variants, pivot), prior, true)
    ensures AppendOk(StretchLast(variants, pivot), pivot, false)
  {
    assert forall u :: u in versions ==> Less(u, pivot);
    LastMatches(versions, variants, prior, true);
    StretchMatches(variants, prior, pivot);
    hide Matches;
  }

  lemma {:induction false} MinorIsShaped(active: Registry, child: Registry, prior: Version, pivot: Version, e: Evidence,
                                         name: Route -> string)
    requires WellFormed(active) && prior == active.versions[|active.versions| - 1] && Less(prior, pivot)
    requires CORRECTED in active.versions && prior != CORRECTED
    requires MinorStep(active, child, pivot, e, name)
    ensures MinorShape(child, prior, pivot)
  {
    hide Tidy, Matches, Less, MinorOperationsStep, MinorEndpointsStep, WellFormed, AppendOk, Routes;
    forall i | 0 <= i < |child.operations|
      ensures var ranges := child.operations[i].ranges;
              && ranges != [] && ranges[|ranges| - 1].minimum == ranges[|ranges| - 1].maximum == pivot
              && |Matches(ranges, prior)| == 1 && Matches(ranges, prior)[0].maximum == prior
              && forall u :: Less(prior, u) && Less(u, pivot) ==> Matches(ranges, u) == []
    {
      MinorOperationsShape(active, child, prior, pivot, e, name, i);
    }
    forall i | 0 <= i < |child.endpoints|
      ensures var variants := child.endpoints[i].variants;
              && AppendOk(variants, pivot, false) && SelectedOk(variants, prior, true)
              && forall u :: Less(prior, u) && Less(u, pivot) ==> Matches(variants, u) == Matches(variants, prior)
    {
      MinorEndpointsShape(active, child, prior, pivot, name, i);
    }
  }

  /** Neither insertion refuses. */
  lemma {:induction false} FirstInsertOk(p: Plan, parent: Registry, base: seq<Version>)
    requires Fits(p, parent, base) && MinorShape(parent, p.prior, p.pivot)
    ensures InsertAllOk(parent, p.prior, p.i1, p.pivot, false)
  {
    hide Matches;
    assert Less(p.prior, p.i1) && Less(p.i1, p.pivot);
    hide Less;
  }

  lemma {:induction false} SameGap<T>(versions: seq<Version>, items: seq<Item<T>>, prior: Version, pivot: Version,
                                      u: Version, v: Version)
    requires forall item :: item in items ==> Known(versions, item)
    requires forall w :: w in versions ==> AtMost(w, prior) || AtMost(pivot, w)
    requires Less(prior, u) && Less(u, pivot) && Less(prior, v) && Less(v, pivot)
    ensures Matches(items, u) == Matches(items, v)
  {
    if items != [] {
      assert items[0] in items;
      assert Covers(items[0], u) <==> Covers(items[0], v);
      SameGap(versions, items[1..], prior, pivot, u, v);
    }
  }

  /** What the first insertion asks for, a second one finds too: no bound lies in the gap. */
  lemma {:induction false} GapClosed(p: Plan, parent: Registry, base: seq<Version>)
    requires WellFormed(parent) && Fits(p, parent, base)
    ensures forall i :: 0 <= i < |parent.operations| ==>
              Matches(parent.operations[i].ranges, p.i1) == Matches(parent.operations[i].ranges, p.i2)
    ensures forall i :: 0 <= i < |parent.endpoints| ==>
              Matches(parent.endpoints[i].variants, p.i1) == Matches(parent.endpoints[i].variants, p.i2)
  {
    PlanDisjoint(p, parent, base);
    assert Less(p.prior, p.i1) && Less(p.i1, p.pivot) && Less(p.prior, p.i2) && Less(p.i2, p.pivot);
    hide Matches, Less, Tidy, Ascending;
    forall i | 0 <= i < |parent.operations|
      ensures Matches(parent.operations[i].ranges, p.i1) == Matches(parent.operations[i].ranges, p.i2)
    {
      TidyKnown(parent.versions, parent.operations[i].ranges, false);
      SameGap(parent.versions, parent.operations[i].ranges, p.prior, p.pivot, p.i1, p.i2);
    }
    forall i | 0 <= i < |parent.endpoints|
      ensures Matches(parent.endpoints[i].variants, p.i1) == Matches(parent.endpoints[i].variants, p.i2)
    {
      TidyKnown(parent.versions, parent.endpoints[i].variants, true);
      SameGap(parent.versions, parent.endpoints[i].variants, p.prior, p.pivot, p.i1, p.i2);
    }
  }

  lemma {:induction false} SecondInsertOk(p: Plan, parent: Registry, base: seq<Version>, l1: Registry)
    requires WellFormed(parent) && Fits(p, parent, base) && InsertAllOk(parent, p.prior, p.i1, p.pivot, false)
    requires InsertStep(parent, l1, p.prior, p.i1, p.pivot)
    ensures InsertAllOk(l1, p.i1, p.i2, p.pivot, true)
  {
    GapClosed(p, parent, base);
    assert p.i1 != p.i2;
    hide Matches, Less, Tidy, Ascending;
    assert l1.versions == base + [p.i1, p.pivot];
    forall i | 0 <= i < |l1.operations| ensures InsertOk(l1.operations[i].ranges, p.i1, p.i2, p.pivot, true) {
      assert Inserted(parent.operations[i], l1.operations[i], p.prior, p.i1);
      assert InsertOk(parent.operations[i].ranges, p.prior, p.i1, p.pivot, false);
    }
    forall i | 0 <= i < |l1.endpoints| ensures EndpointOk(l1.endpoints[i], p.i1, p.i2) {
      assert EndpointOk(parent.endpoints[i], p.prior, p.i1);
    }
  }

  /** Neither append refuses. */
  lemma {:induction false} FirstAppendOk(parent: Registry, prior: Version, pivot: Version)
    requires MinorShape(parent, prior, pivot)
    ensures AppendAllOk(parent, pivot, false)
  {
    hide QuietGap, Matches;
  }

  lemma {:induction false} SecondAppendOk(parent: Registry, r1: Registry, v: Version)
    requires AppendStep(parent, r1, v)
    ensures AppendAllOk(r1, v, true)
  {
    hide Matches;
    forall i | 0 <= i < |r1.operations| ensures AppendOk(r1.operations[i].ranges, v, true) {
      assert OperationAppended(parent.operations[i], r1.operations[i], v);
    }
    forall i | 0 <= i < |r1.endpoints| ensures AppendOk(r1.endpoints[i].variants, v, true) {
      assert EndpointAppended(parent.endpoints[i], r1.endpoints[i], v);
    }
  }

  // ----- The chain

  /** Two releases are matched alike, in number and value. */
  ghost predicate LikeAt<T>(items: seq<Item<T>>, u: Version, v: Version) {
    |Matches(items, u)| == |Matches(items, v)| && Lookup(items, u) == Lookup(items, v)
  }

  ghost predicate AllLike(r: Registry, u: Version, v: Version) {
    && (forall i :: 0 <= i < |r.operations| ==> LikeAt(r.operations[i].ranges, u, v))
    && (forall i :: 0 <= i < |r.endpoints| ==> LikeAt(r.endpoints[i].variants, u, v))
  }

  /** The patches of the older line say what their predecessor says, those of the newer line
      what the pivot says. */
  ghost predicate PatchesInherit(p: Plan, r: Registry) {
    AllLike(r, p.i1, p.prior) && AllLike(r, p.i2, p.prior) && AllLike(r, p.a1, p.pivot) && AllLike(r, p.a2, p.pivot)
  }

  lemma {:induction false} LikeMoves<T>(from: seq<Item<T>>, target: seq<Item<T>>, u: Version, v: Version)
    requires Matches(target, u) == Matches(from, u) && Matches(target, v) == Matches(from, v) && LikeAt(from, u, v)
    ensures LikeAt(target, u, v)
  {
    hide Matches;
  }

  lemma {:induction false} LikeSame<T>(items: seq<Item<T>>, u: Version, v: Version)
    requires Matches(items, u) == Matches(items, v)
    ensures LikeAt(items, u, v)
  {
    hide Matches;
  }

  /** The appended copies are like the last item of a tidy list. */
  lemma {:induction false} CopiesAlike<T>(p: Plan, versions: seq<Version>, items: seq<Item<T>>, middle: seq<Item<T>>,
                                          right: seq<Item<T>>, target: seq<Item<T>>, optional: bool)
    requires Tidy(versions, items, optional) && AppendOk(items, p.pivot, false)
    requires p.a1 != p.a2 && Appended(items, middle, p.a1) && Appended(middle, right, p.a2)
    requires forall u :: u in versions ==> Less(u, p.a1)
    requires forall u :: u in versions ==> Less(u, p.a2)
    requires Matches(target, p.pivot) == Matches(items, p.pivot)
    requires Matches(target, p.a1) == Matches(right, p.a1) && Matches(target, p.a2) == Matches(right, p.a2)
    ensures LikeAt(target, p.a1, p.pivot) && LikeAt(target, p.a2, p.pivot)
  {
    hide Matches, Tidy, Less, Appended;
    LastMatches(versions, items, p.pivot, optional);
    UnmatchedLater(versions, items, optional, p.a1);
    UnmatchedLater(versions, items, optional, p.a2);
    AppendedTwice(items, middle, right, p.a1, p.a2);
  }

  lemma {:induction false} InsertedAlike<T>(p: Plan, items: seq<Item<T>>, once: seq<Item<T>>, twice: seq<Item<T>>)
    requires InsertedItems(items, once, p.prior, p.i1) && InsertedItems(once, twice, p.i1, p.i2)
    requires p.i1 != p.i2 && p.prior != p.i1 && p.prior != p.i2
    ensures LikeAt(twice, p.i1, p.prior) && LikeAt(twice, p.i2, p.prior)
  {
    hide Matches;
  }

  lemma {:induction false} PatchesAlike(p: Plan, parent: Registry, base: seq<Version>, l1: Registry, l2: Registry,
                                        r1: Registry, r2: Registry, merged: Registry)
    requires WellFormed(parent) && Fits(p, parent, base)
    requires InsertAllOk(parent, p.prior, p.i1, p.pivot, false) && AppendAllOk(parent, p.pivot, false)
    requires InsertStep(parent, l1, p.prior, p.i1, p.pivot) && InsertStep(l1, l2, p.i1, p.i2, p.pivot)
    requires AppendStep(parent, r1, p.a1) && AppendStep(r1, r2, p.a2)
    requires AllMerged(l2, r2, merged)
    ensures PatchesInherit(p, merged)
  {
    PlanDisjoint(p, parent, base);
    PlanListed(p, parent, base, l1, l2, r1, r2);
    GapClosed(p, parent, base);
    hide Tidy, Matches, Appended, InsertedItems, Less, LikeAt, Ascending, AppendOk;
    forall i | 0 <= i < |merged.operations|
      ensures var ranges := merged.operations[i].ranges;
              && LikeAt(ranges, p.i1, p.prior) && LikeAt(ranges, p.i2, p.prior)
              && LikeAt(ranges, p.a1, p.pivot) && LikeAt(ranges, p.a2, p.pivot)
    {
      OperationAlike(p, parent, base, l1, l2, r1, r2, merged, i);
    }
    forall i | 0 <= i < |merged.endpoints|
      ensures var variants := merged.endpoints[i].variants;
              && LikeAt(variants, p.i1, p.prior) && LikeAt(variants, p.i2, p.prior)
              && LikeAt(variants, p.a1, p.pivot) && LikeAt(variants, p.a2, p.pivot)
    {
      EndpointAlike(p, parent, base, l1, l2, r1, r2, merged, i);
    }
  }

  lemma {:induction false} PlanListed(p: Plan, parent: Registry, base: seq<Version>, l1: Registry, l2: Registry,
                                      r1: Registry, r2: Registry)
    requires Fits(p, parent, base)
    requires InsertStep(parent, l1, p.prior, p.i1, p.pivot) && InsertStep(l1, l2, p.i1, p.i2, p.pivot)
    requires AppendStep(parent, r1, p.a1) && AppendStep(r1, r2, p.a2)
    ensures forall v :: v in {p.prior, p.i1, p.i2, p.pivot} ==> v in l2.versions
    ensures forall v :: v in {p.a1, p.a2} ==> v in r2.versions
    ensures p.prior != p.i1 && p.prior != p.i2 && p.i1 != p.i2 && p.pivot != p.i1 && p.pivot != p.i2
  {
    ChainVersions(p, parent, base, l1, l2, r1, r2);
    assert p.prior in base;
    hide InsertStep, AppendStep;
  }

  lemma {:induction false} OperationAlike(p: Plan, parent: Registry, base: seq<Version>, l1: Registry, l2: Registry,
                                          r1: Registry, r2: Registry, merged: Registry, i: nat)
    requires WellFormed(parent) && Fits(p, parent, base) && AppendAllOk(parent, p.pivot, false)
    requires InsertStep(parent, l1, p.prior, p.i1, p.pivot) && InsertStep(l1, l2, p.i1, p.i2, p.pivot)
    requires AppendStep(parent, r1, p.a1) && AppendStep(r1, r2, p.a2)
    requires AllMerged(l2, r2, merged) && i < |merged.operations|
    ensures var ranges := merged.operations[i].ranges;
            && LikeAt(ranges, p.i1, p.prior) && LikeAt(ranges, p.i2, p.prior)
            && LikeAt(ranges, p.a1, p.pivot) && LikeAt(ranges, p.a2, p.pivot)
  {
    PlanDisjoint(p, parent, base);
    PlanListed(p, parent, base, l1, l2, r1, r2);
    hide Tidy, Matches, Appended, InsertedItems, Less, LikeAt, Ascending;
    var items, left := parent.operations[i].ranges, l2.operations[i].ranges;
    var target := merged.operations[i].ranges;
    assert Inserted(parent.operations[i], l1.operations[i], p.prior, p.i1);
    assert Inserted(l1.operations[i], l2.operations[i], p.i1, p.i2);
    assert OperationAppended(parent.operations[i], r1.operations[i], p.a1);
    assert OperationAppended(r1.operations[i], r2.operations[i], p.a2);
    InsertedAlike(p, items, l1.operations[i].ranges, left);
    InsertedTwice(p, items, l1.operations[i].ranges, left);
    LikeMoves(left, target, p.i1, p.prior);
    LikeMoves(left, target, p.i2, p.prior);
    CopiesAlike(p, parent.versions, items, r1.operations[i].ranges, r2.operations[i].ranges, target, false);
  }

  lemma {:induction false} EndpointAlike(p: Plan, parent: Registry, base: seq<Version>, l1: Registry, l2: Registry,
                                         r1: Registry, r2: Registry, merged: Registry, i: nat)
    requires WellFormed(parent) && Fits(p, parent, base)
    requires InsertAllOk(parent, p.prior, p.i1, p.pivot, false) && AppendAllOk(parent, p.pivot, false)
    requires InsertStep(parent, l1, p.prior, p.i1, p.pivot) && InsertStep(l1, l2, p.i1, p.i2, p.pivot)
    requires AppendStep(parent, r1, p.a1) && AppendStep(r1, r2, p.a2)
    requires AllMerged(l2, r2, merged) && i < |merged.endpoints|
    ensures var variants := merged.endpoints[i].variants;
            && LikeAt(variants, p.i1, p.prior) && LikeAt(variants, p.i2, p.prior)
            && LikeAt(variants, p.a1, p.pivot) && LikeAt(variants, p.a2, p.pivot)
  {
    PlanDisjoint(p, parent, base);
    PlanListed(p, parent, base, l1, l2, r1, r2);
    GapClosed(p, parent, base);
    hide Tidy, Matches, Appended, Inserted, Less, LikeAt, Ascending;
    var items, target := parent.endpoints[i].variants, merged.endpoints[i].variants;
    assert EndpointOk(parent.endpoints[i], p.prior, p.i1);
    assert EndpointAppended(parent.endpoints[i], r1.endpoints[i], p.a1);
    assert EndpointAppended(r1.endpoints[i], r2.endpoints[i], p.a2);
    LikeSame(items, p.i1, p.prior);
    LikeSame(items, p.i2, p.prior);
    LikeMoves(items, target, p.i1, p.prior);
    LikeMoves(items, target, p.i2, p.prior);
    CopiesAlike(p, parent.versions, items, r1.endpoints[i].variants, r2.endpoints[i].variants, target, true);
  }

  /** Both branches and the merge, from one well-formed parent. If the first step of either
      branch passes, so does the second; if both branches pass, so does the merge. */
  method MergeBranches(p: Plan, parent: Registry) returns (r: Option<Registry>)
    requires WellFormed(parent) && Fits(p, parent, parent.versions[..|parent.versions| - 1])
    ensures r.Some? <==> (InsertAllOk(parent, p.prior, p.i1, p.pivot, false) && AppendAllOk(parent, p.pivot, false))
    ensures r.Some? ==>
              && r.value.versions
                   == parent.versions[..|parent.versions| - 1] + [p.i1, p.i2] + [p.pivot] + [p.a1, p.a2]
              && WellFormed(r.value) && KeepsHistory(parent, r.value) && PatchesInherit(p, r.value)
              && |r.value.operations| == |parent.operations|
  {
    hide InsertAllOk, AppendAllOk, WellFormed, KeepsHistory, InsertStep, AppendStep, MergeStep, AllMerged, CombineOk,
         PatchesInherit, InheritsAll, Ascending;
    var base := parent.versions[..|parent.versions| - 1];
    WellFormedAscends(parent);
    PlanDisjoint(p, parent, base);
    var l1, counts1 := InsertPatch(parent, p.prior, p.i1, p.pivot, false);
    if l1.None? {
      return None;
    }
    SecondInsertOk(p, parent, base, l1.value);
    var l2, counts2 := InsertPatch(l1.value, p.i1, p.i2, p.pivot, true);
    var r1 := AppendPatch(parent, p.pivot, p.a1, false);
    if r1.None? {
      return None;
    }
    SecondAppendOk(parent, r1.value, p.a1);
    var r2 := AppendPatch(r1.value, p.a1, p.a2, true);
    BranchesCombine(p, parent, base, l1.value, l2.value, r1.value, r2.value);
    ChainVersions(p, parent, base, l1.value, l2.value, r1.value, r2.value);
    RightAscends(p, parent, base);
    r := Combine(l2.value, r2.value, base, [p.i1, p.i2], p.pivot, [p.a1, p.a2]);
    ghost var merged := r.value;
    PatchesAlike(p, parent, base, l1.value, l2.value, r1.value, r2.value, merged);
    MergedVersions(l2.value, r2.value, merged, [p.a1, p.a2]);
    AppendedSizes(parent, r1.value, r2.value, p.a1, p.a2);
    Fresh(p, parent, base);
    HistoryChain(parent, l1.value, l2.value);
    HistoryChain(parent, l2.value, merged);
  }

  lemma {:induction false} WellFormedAscends(r: Registry)
    requires WellFormed(r)
    ensures r.versions != [] && Ascending(r.versions)
  {
  }

  lemma {:induction false} MergedVersions(left: Registry, right: Registry, child: Registry, added: seq<Version>)
    requires MergeStep(left, right, child, added)
    ensures child.versions == left.versions + added
    ensures |child.operations| == |left.operations| == |right.operations|
  {
  }

  lemma {:induction false} AppendedSizes(parent: Registry, r1: Registry, r2: Registry, a1: Version, a2: Version)
    requires AppendStep(parent, r1, a1) && AppendStep(r1, r2, a2)
    ensures |r2.operations| == |parent.operations|
  {
  }

  lemma {:induction false} RightAscends(p: Plan, parent: Registry, base: seq<Version>)
    requires Fits(p, parent, base) && Ascending(parent.versions)
    ensures Ascending(base + [p.pivot] + [p.a1, p.a2]) && Distinct([p.a1, p.a2])
  {
    PlanDisjoint(p, parent, base);
  }

  /** The new releases are new to every list they are added to. */
  lemma {:induction false} Fresh(p: Plan, parent: Registry, base: seq<Version>)
    requires Fits(p, parent, base) && Ascending(parent.versions)
    ensures p.i1 !in parent.versions && p.i2 !in base + [p.i1, p.pivot]
    ensures forall v :: v in [p.a1, p.a2] ==> v !in base + [p.i1, p.i2] + [p.pivot]
  {
    PlanDisjoint(p, parent, base);
    assert p.pivot in parent.versions;
    assert forall u :: u in base ==> u in parent.versions;
  }

  /** The chain from the active registry. It refuses exactly when the minor step does: then
      both branches and the merge go through, history is kept from end to end, the new minor
      has the evidence's states and every patch those of its line. */
  method CandidateChain(p: Plan, active: Registry, e: Evidence, name: Route -> string) returns (r: Option<Registry>)
    requires WellFormed(active) && Ordered(p) && active.versions[|active.versions| - 1] == p.prior
    requires CORRECTED in active.versions && p.prior != CORRECTED
    ensures r.Some? <==> MinorOk(active, e)
    ensures r.Some? ==>
              && r.value.versions == active.versions + [p.i1, p.i2] + [p.pivot] + [p.a1, p.a2]
              && WellFormed(r.value) && KeepsHistory(active, r.value) && PatchesInherit(p, r.value)
              && PivotStates(r.value, p.pivot, e)
  {
    hide MinorOk, PivotStates, MinorStep, WellFormed, KeepsHistory, MinorStates, NewIdentities, EndpointsInherit,
         PatchesInherit, InsertAllOk, AppendAllOk, Ascending, MinorShape, OperationsKept;
    WellFormedAscends(active);
    PriorLess(p);
    var parent := AppendMinor(active, p.pivot, e, name);
    if parent.None? {
      return None;
    }
    MinorVersions(active, parent.value, p.pivot, e, name);
    MinorIsShaped(active, parent.value, p.prior, p.pivot, e, name);
    FirstInsertOk(p, parent.value, active.versions);
    FirstAppendOk(parent.value, p.prior, p.pivot);
    assert parent.value.versions[..|parent.value.versions| - 1] == active.versions;
    r := MergeBranches(p, parent.value);
    HistoryChain(active, parent.value, r.value);
    StatesKept(parent.value, r.value, p.pivot, e);
  }

  /** Every operation of the registry has the evidence's state in the new minor. */
  ghost predicate PivotStates(r: Registry, pivot: Version, e: Evidence) {
    forall i :: 0 <= i < |r.operations| ==>
      Lookup(r.operations[i].ranges, pivot)
        == Some(MinorState(r.operations[i].route, r.operations[i].disposition, e))
  }

  lemma {:induction false} StatesKept(parent: Registry, child: Registry, pivot: Version, e: Evidence)
    requires MinorStates(parent.operations, pivot, e) && KeepsHistory(parent, child)
    requires pivot in parent.versions && |child.operations| == |parent.operations|
    ensures PivotStates(child, pivot, e)
  {
    hide Matches, MinorState;
    forall i | 0 <= i < |child.operations|
      ensures Lookup(child.operations[i].ranges, pivot)
           == Some(MinorState(child.operations[i].route, child.operations[i].disposition, e))
    {
      var before := parent.operations[i];
      assert Matches(before.ranges, pivot) == [Item(pivot, pivot, MinorState(before.route, before.disposition, e))];
      assert SameOn(parent.versions, before.ranges, child.operations[i].ranges);
    }
  }

  lemma {:induction false} PriorLess(p: Plan)
    requires Ordered(p)
    ensures Less(p.prior, p.pivot)
  {
  }

  lemma {:induction false} MinorVersions(active: Registry, child: Registry, v: Version, e: Evidence,
                                         name: Route -> string)
    requires MinorStep(active, child, v, e, name)
    ensures child.versions == active.versions + [v]
  {
    hide Routes, MinorOperationsStep, MinorEndpointsStep;
  }
}
