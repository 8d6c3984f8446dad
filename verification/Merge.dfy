/** Merging two branches of a registry that grew from one parent
    (scripts/generate_openbao_patch_registry.py, combine). */
module Merge {
  import opened Text
  import opened Versions
  import opened Ranges
  import opened Registries

  /** The branches agree, item for item, on every shared release, and the right branch has
      a range of its own for every release it adds (`optional`: or none). */
  ghost predicate Agree<T>(left: seq<Item<T>>, right: seq<Item<T>>, shared: seq<Version>, added: seq<Version>,
                           optional: bool) {
    && (forall v :: v in shared ==> SelectedOk(left, v, optional) && SelectedOk(right, v, optional)
                                    && Matches(left, v) == Matches(right, v))
    && (forall v :: v in added ==> SelectedOk(right, v, optional) && OwnRange(right, v))
  }

  ghost predicate OwnRange<T>(items: seq<Item<T>>, v: Version) {
    forall item :: item in Matches(items, v) ==> item.minimum == item.maximum == v
  }

  /** The left items with the right branch's matches of the added releases. */
  ghost predicate Joined<T>(left: seq<Item<T>>, right: seq<Item<T>>, added: seq<Version>, target: seq<Item<T>>) {
    && (forall u :: u !in added ==> Matches(target, u) == Matches(left, u))
    && (forall u :: u in added ==> Matches(target, u) == Matches(left, u) + Matches(right, u))
    && (forall item :: item in target ==> item in left || (item.minimum == item.maximum && item.minimum in added))
  }

  /** One operation or endpoint of the merge: the left items, with the right branch's items
      for the added releases appended in order. */
  method CombineItems<T(==)>(left: seq<Item<T>>, right: seq<Item<T>>, shared: seq<Version>, added: seq<Version>,
                             optional: bool)
    returns (ok: bool, target: seq<Item<T>>)
    requires Distinct(added)
    ensures ok <==> Agree(left, right, shared, added, optional)
    ensures ok ==> Joined(left, right, added, target)
  {
    target := left;
    hide Matches;
    var k := 0;
    while k < |shared|
      invariant 0 <= k <= |shared|
      invariant forall i :: 0 <= i < k ==>
                  && SelectedOk(left, shared[i], optional) && SelectedOk(right, shared[i], optional)
                  && Matches(left, shared[i]) == Matches(right, shared[i])
    {
      var okLeft, a := Selected(left, shared[k], optional);
      var okRight, b := Selected(right, shared[k], optional);
      if !okLeft || !okRight || a != b {
        return false, target;
      }
      k := k + 1;
    }
    k := 0;
    while k < |added|
      invariant 0 <= k <= |added|
      invariant forall i :: 0 <= i < k ==> SelectedOk(right, added[i], optional) && OwnRange(right, added[i])
      invariant forall u :: u !in added[..k] ==> Matches(target, u) == Matches(left, u)
      invariant forall u :: u in added[..k] ==> Matches(target, u) == Matches(left, u) + Matches(right, u)
      invariant forall item :: item in target ==>
                  item in left || (item.minimum == item.maximum && item.minimum in added)
    {
      var v := added[k];
      var okRight, item := Selected(right, v, optional);
      if !okRight {
        return false, target;
      }
      OwnRangeIff(right, v, item);
      if item.Some? && !(item.value.minimum == v && item.value.maximum == v) {
        return false, target;
      }
      assert v !in added[..k] && added[..k + 1] == added[..k] + [v];
      if item.Some? {
        PushPoint(target, item.value, v);
        target := target + [item.value];
      } else {
        assert Matches(left, v) + [] == Matches(left, v);
      }
      k := k + 1;
    }
    assert added[..k] == added;
    ok := true;
  }

  lemma {:induction false} OwnRangeIff<T>(items: seq<Item<T>>, v: Version, item: Option<Item<T>>)
    requires Matches(items, v) == (if item.Some? then [item.value] else [])
    ensures OwnRange(items, v) <==> item.None? || item.value.minimum == item.value.maximum == v
  {
    assert item.Some? ==> item.value in Matches(items, v);
  }

  /** On an added release the merge agrees with the right branch exactly when the left branch
      leaves that release unmatched; elsewhere it needs nothing. */
  lemma {:induction false} JoinedAgrees<T>(left: seq<Item<T>>, right: seq<Item<T>>, shared: seq<Version>,
                                           added: seq<Version>, optional: bool, target: seq<Item<T>>, u: Version)
    requires Agree(left, right, shared, added, optional) && Joined(left, right, added, target)
    ensures u !in added ==> Matches(target, u) == Matches(left, u)
    ensures u in shared && u !in added ==> Matches(target, u) == Matches(right, u)
    ensures u in added ==> (Matches(target, u) == Matches(right, u) <==> Matches(left, u) == [])
  {
    hide Matches, OwnRange;
    if u in added {
      assert |Matches(target, u)| == |Matches(left, u)| + |Matches(right, u)|;
    }
  }

  /** The merged items look like the left branch on its releases and like the right one on its. */
  ghost predicate Merged<T>(left: seq<Item<T>>, right: seq<Item<T>>, leftVersions: seq<Version>,
                            rightVersions: seq<Version>, target: seq<Item<T>>) {
    && (forall v :: v in leftVersions ==> Matches(target, v) == Matches(left, v))
    && (forall v :: v in rightVersions ==> Matches(target, v) == Matches(right, v))
  }

  ghost predicate CombineOk(left: Registry, right: Registry, base: seq<Version>, mids: seq<Version>, pivot: Version,
                            added: seq<Version>) {
    && left.versions == base + mids + [pivot] && right.versions == base + [pivot] + added
    && OperationsAgree(left, right, base + [pivot], added) && EndpointsAgree(left, right, base + [pivot], added)
  }

  ghost predicate OperationsAgree(left: Registry, right: Registry, shared: seq<Version>, added: seq<Version>) {
    && |left.operations| == |right.operations|
    && forall i :: 0 <= i < |left.operations| ==>
         && SameIdentity(left.operations[i], right.operations[i])
         && Agree(left.operations[i].ranges, right.operations[i].ranges, shared, added, false)
  }

  ghost predicate EndpointsAgree(left: Registry, right: Registry, shared: seq<Version>, added: seq<Version>) {
    && |left.endpoints| == |right.endpoints|
    && forall i :: 0 <= i < |left.endpoints| ==>
         && left.endpoints[i].id == right.endpoints[i].id
         && Agree(left.endpoints[i].variants, right.endpoints[i].variants, shared, added, true)
  }

  /** The result of the merge, for any branches that pass it. */
  ghost predicate MergeStep(left: Registry, right: Registry, child: Registry, added: seq<Version>) {
    && child.versions == left.versions + added
    && OperationsJoined(left, right, child.operations, added) && EndpointsJoined(left, right, child.endpoints, added)
  }

  ghost predicate OperationsJoined(left: Registry, right: Registry, operations: seq<Operation>, added: seq<Version>) {
    && |operations| == |left.operations| == |right.operations|
    && forall i :: 0 <= i < |left.operations| ==>
         && SameIdentity(operations[i], left.operations[i])
         && Joined(left.operations[i].ranges, right.operations[i].ranges, added, operations[i].ranges)
  }

  ghost predicate EndpointsJoined(left: Registry, right: Registry, endpoints: seq<Endpoint>, added: seq<Version>) {
    && |endpoints| == |left.endpoints| == |right.endpoints|
    && forall i :: 0 <= i < |left.endpoints| ==>
         && endpoints[i].id == left.endpoints[i].id
         && Joined(left.endpoints[i].variants, right.endpoints[i].variants, added, endpoints[i].variants)
  }

  ghost predicate AllMerged(left: Registry, right: Registry, child: Registry) {
    && |child.operations| == |left.operations| == |right.operations|
    && |child.endpoints| == |left.endpoints| == |right.endpoints|
    && (forall i :: 0 <= i < |left.operations| ==>
          Merged(left.operations[i].ranges, right.operations[i].ranges, left.versions, right.versions,
                 child.operations[i].ranges))
    && (forall i :: 0 <= i < |left.endpoints| ==>
          Merged(left.endpoints[i].variants, right.endpoints[i].variants, left.versions, right.versions,
                 child.endpoints[i].variants))
  }

  /** No listed release before the added ones is changed, in any merge. */
  lemma {:induction false} MergeHistory(left: Registry, right: Registry, child: Registry, added: seq<Version>)
    requires MergeStep(left, right, child, added) && forall v :: v in added ==> v !in left.versions
    ensures KeepsHistory(left, child)
  {
    hide Matches;
  }

  lemma {:induction false} AddedUnmatched<T>(before: seq<Version>, left: seq<Item<T>>, added: seq<Version>,
                                             optional: bool)
    requires Tidy(before, left, optional)
    requires forall v :: v in added ==> forall u :: u in before ==> Less(u, v)
    ensures forall v :: v in added ==> v !in before && Matches(left, v) == []
  {
    TidyKnown(before, left, optional);
    forall v | v in added ensures v !in before && Matches(left, v) == [] {
      NothingAfter(before, left, v);
    }
  }

  /** A tidy left branch: the join agrees with both branches and stays tidy. */
  lemma {:induction false} JoinedTidy<T>(left: seq<Item<T>>, right: seq<Item<T>>, before: seq<Version>,
                                         shared: seq<Version>, added: seq<Version>, optional: bool,
                                         target: seq<Item<T>>)
    requires Tidy(before, left, optional) && Agree(left, right, shared, added, optional)
    requires Joined(left, right, added, target)
    requires forall v :: v in shared ==> v in before
    requires forall v :: v in added ==> forall u :: u in before ==> Less(u, v)
    ensures Merged(left, right, before, shared + added, target)
    ensures Tidy(before + added, target, optional)
  {
    TidyKnown(before, left, optional);
    AddedUnmatched(before, left, added, optional);
    hide Matches, Less, OwnRange;
    forall item | item in target ensures Known(before + added, item) && AtMost(item.minimum, item.maximum) {
      assert item in left ==> Known(before, item);
    }
    forall v | v in added ensures Matches(target, v) == Matches(right, v) {
      JoinedAgrees(left, right, shared, added, optional, target, v);
    }
    forall v | v in before + added ensures SelectedOk(target, v, optional) {
      if v in added {
        assert SelectedOk(right, v, optional);
      } else {
        assert SelectedOk(left, v, optional);
      }
    }
  }

  /** `combine`: it refuses exactly branches that differ on a shared release or lack a range
      of their own for an added one. For a well-formed left branch the result agrees with
      the left branch on every left release and with the right branch on every right one. */
  method Combine(left: Registry, right: Registry, base: seq<Version>, mids: seq<Version>, pivot: Version,
                 added: seq<Version>)
    returns (r: Option<Registry>)
    requires Distinct(added)
    ensures r.Some? <==> CombineOk(left, right, base, mids, pivot, added)
    ensures r.Some? ==> MergeStep(left, right, r.value, added)
    ensures r.Some? && (forall v :: v in added ==> v !in left.versions) ==> KeepsHistory(left, r.value)
    ensures r.Some? && WellFormed(left) && Ascending(base + [pivot] + added) ==>
              WellFormed(r.value) && AllMerged(left, right, r.value)
  {
    hide Tidy, Merged, Agree, Joined, Less, Matches, SameOn, WellFormed;
    if || left.versions != base + mids + [pivot] || right.versions != base + [pivot] + added
       || |left.operations| != |right.operations| || |left.endpoints| != |right.endpoints| {
      return None;
    }
    var shared := base + [pivot];
    var okOperations, operations := CombineOperations(left, right, shared, added);
    if !okOperations {
      return None;
    }
    var okEndpoints, endpoints := CombineEndpoints(left, right, shared, added);
    if !okEndpoints {
      return None;
    }
    var child := Registry(left.versions + added, operations, endpoints);
    if forall v :: v in added ==> v !in left.versions {
      MergeHistory(left, right, child, added);
    }
    if WellFormed(left) && Ascending(base + [pivot] + added) {
      MergeWellFormed(left, right, child, base, mids, pivot, added);
    }
    r := Some(child);
  }

  /** The added releases come after everything the left branch lists. */
  lemma {:induction false} AddedAfter(base: seq<Version>, mids: seq<Version>, pivot: Version, added: seq<Version>,
                                      before: seq<Version>)
    requires before == base + mids + [pivot] && Ascending(before) && Ascending(base + [pivot] + added)
    ensures Distinct(added) && Ascending(before + added)
    ensures forall v :: v in added ==> forall u :: u in before ==> Less(u, v)
    ensures forall v :: v in base + [pivot] ==> v in before
  {
    var right := base + [pivot] + added;
    var n := |base| + 1;
    LastIsGreatest(before);
    assert before[|before| - 1] == pivot == right[n - 1];
    assert forall i :: 0 <= i < |added| ==> added[i] == right[n + i];
    forall i, u | 0 <= i < |added| && u in before ensures Less(u, added[i]) {
      assert Less(right[n - 1], right[n + i]);
      assert AtMost(u, pivot);
    }
    forall i, j | 0 <= i < j < |added| ensures Less(added[i], added[j]) {
      assert Less(right[n + i], right[n + j]);
    }
  }

  lemma {:induction false} MergeWellFormed(left: Registry, right: Registry, child: Registry, base: seq<Version>,
                                           mids: seq<Version>, pivot: Version, added: seq<Version>)
    requires WellFormed(left) && Ascending(base + [pivot] + added)
    requires CombineOk(left, right, base, mids, pivot, added) && MergeStep(left, right, child, added)
    ensures WellFormed(child) && AllMerged(left, right, child)
  {
    hide Tidy, Merged, Agree, Joined, Less, Matches, Ascending;
    var shared := base + [pivot];
    AddedAfter(base, mids, pivot, added, left.versions);
    forall i | 0 <= i < |left.operations|
      ensures Merged(left.operations[i].ranges, right.operations[i].ranges, left.versions, right.versions,
                     child.operations[i].ranges)
      ensures Tidy(child.versions, child.operations[i].ranges, false)
    {
      JoinedTidy(left.operations[i].ranges, right.operations[i].ranges, left.versions, shared, added, false,
                 child.operations[i].ranges);
    }
    forall i | 0 <= i < |left.endpoints|
      ensures Merged(left.endpoints[i].variants, right.endpoints[i].variants, left.versions, right.versions,
                     child.endpoints[i].variants)
      ensures Tidy(child.versions, child.endpoints[i].variants, true)
    {
      JoinedTidy(left.endpoints[i].variants, right.endpoints[i].variants, left.versions, shared, added, true,
                 child.endpoints[i].variants);
    }
  }

  method CombineOperations(left: Registry, right: Registry, shared: seq<Version>, added: seq<Version>)
    returns (ok: bool, operations: seq<Operation>)
    requires |left.operations| == |right.operations| && Distinct(added)
    ensures ok <==> OperationsAgree(left, right, shared, added)
    ensures ok ==> OperationsJoined(left, right, operations, added)
  {
    operations := [];
    var k := 0;
    hide Joined, Agree;
    while k < |left.operations|
      invariant 0 <= k <= |left.operations| && |operations| == k
      invariant forall i :: 0 <= i < k ==>
                  && SameIdentity(left.operations[i], right.operations[i])
                  && Agree(left.operations[i].ranges, right.operations[i].ranges, shared, added, false)
      invariant forall i :: 0 <= i < k ==>
                  && SameIdentity(operations[i], left.operations[i])
                  && Joined(left.operations[i].ranges, right.operations[i].ranges, added, operations[i].ranges)
    {
      var before, after := left.operations[k], right.operations[k];
      if !SameIdentity(before, after) {
        return false, operations;
      }
      var same, target := CombineItems(before.ranges, after.ranges, shared, added, false);
      if !same {
        return false, operations;
      }
      operations, k := operations + [before.(ranges := target)], k + 1;
    }
    ok := true;
  }

  method CombineEndpoints(left: Registry, right: Registry, shared: seq<Version>, added: seq<Version>)
    returns (ok: bool, endpoints: seq<Endpoint>)
    requires |left.endpoints| == |right.endpoints| && Distinct(added)
    ensures ok <==> EndpointsAgree(left, right, shared, added)
    ensures ok ==> EndpointsJoined(left, right, endpoints, added)
  {
    endpoints := [];
    var k := 0;
    hide Joined, Agree;
    while k < |left.endpoints|
      invariant 0 <= k <= |left.endpoints| && |endpoints| == k
      invariant forall i :: 0 <= i < k ==>
                  && left.endpoints[i].id == right.endpoints[i].id
                  && Agree(left.endpoints[i].variants, right.endpoints[i].variants, shared, added, true)
      invariant forall i :: 0 <= i < k ==>
                  && endpoints[i].id == left.endpoints[i].id
                  && Joined(left.endpoints[i].variants, right.endpoints[i].variants, added, endpoints[i].variants)
    {
      var before, after := left.endpoints[k], right.endpoints[k];
      if before.id != after.id {
        return false, endpoints;
      }
      var same, target := CombineItems(before.variants, after.variants, shared, added, true);
      if !same {
        return false, endpoints;
      }
      endpoints, k := endpoints + [before.(variants := target)], k + 1;
    }
    ok := true;
  }
}
