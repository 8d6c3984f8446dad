/** A capability registry: operations with version ranges, logical endpoints with version
    variants, and what it means to keep one registry's history in another
    (scripts/generate_openbao_capability_registry.py and the candidate generators). */
module Registries {
  import opened Text
  import opened Versions
  import opened Ranges

  datatype Operation = Operation(id: string, route: Route, disposition: string, ranges: seq<Item<State>>)

  datatype Endpoint = Endpoint(id: string, variants: seq<Item<string>>)

  datatype Registry = Registry(versions: seq<Version>, operations: seq<Operation>, endpoints: seq<Endpoint>)

  /** The requirement inside `selected`. */
  predicate SelectedOk<T>(items: seq<Item<T>>, v: Version, optional: bool) {
    var found := Matches(items, v);
    |found| == 1 || (optional && found == [])
  }

  /** `selected`: the only match; refused otherwise, unless absence is allowed. */
  method Selected<T>(items: seq<Item<T>>, v: Version, optional: bool) returns (ok: bool, item: Option<Item<T>>)
    ensures ok <==> SelectedOk(items, v, optional)
    ensures ok ==> Matches(items, v) == (if item.Some? then [item.value] else [])
  {
    var found := Matches(items, v);
    ok := |found| == 1 || (optional && found == []);
    item := if found != [] then Some(found[0]) else None;
  }

  /** Every bound is a listed release, and every listed release is matched once
      (`optional`: at most once). */
  ghost predicate Tidy<T>(versions: seq<Version>, items: seq<Item<T>>, optional: bool) {
    && (forall item {:trigger Known(versions, item)} :: item in items ==>
          Known(versions, item) && AtMost(item.minimum, item.maximum))
    && (forall v {:trigger SelectedOk(items, v, optional)} :: v in versions ==> SelectedOk(items, v, optional))
  }

  ghost predicate WellFormed(r: Registry) {
    && r.versions != [] && Ascending(r.versions)
    && (forall i :: 0 <= i < |r.operations| ==> Tidy(r.versions, r.operations[i].ranges, false))
    && (forall i :: 0 <= i < |r.endpoints| ==> Tidy(r.versions, r.endpoints[i].variants, true))
  }

  // ----- What the validator accepts is well formed

  lemma {:induction false} AcceptedBounds(versions: seq<Version>, items: seq<Item<State>>, start: nat,
                                          previous: Option<State>)
    requires Ascending(versions) && AcceptedFrom(versions, items, start, previous)
    ensures forall item :: item in items ==> Known(versions, item) && AtMost(item.minimum, item.maximum)
  {
    if items != [] {
      var stop := IndexOf(versions, items[0].maximum).value;
      AcceptedBounds(versions, items[1..], stop + 1, Some(items[0].value));
      OrderIsPosition(versions, start, stop);
      assert items == [items[0]] + items[1..];
    }
  }

  lemma {:induction false} AcceptedTidy(versions: seq<Version>, items: seq<Item<State>>)
    requires Ascending(versions) && Accepted(versions, items)
    ensures Tidy(versions, items, false)
  {
    AcceptedBounds(versions, items, 0, None);
    forall v | v in versions ensures SelectedOk(items, v, false) {
      AcceptedLookup(versions, items, v);
    }
  }

  lemma {:induction false} VariantBounds<K>(versions: seq<Version>, ids: set<K>, items: seq<Item<K>>, expected: nat)
    requires Ascending(versions) && VariantsFrom(versions, ids, items, expected)
    ensures forall item :: item in items ==> Known(versions, item) && AtMost(item.minimum, item.maximum)
  {
    if items != [] {
      var stop := IndexOf(versions, items[0].maximum).value;
      VariantBounds(versions, ids, items[1..], stop + 1);
      OrderIsPosition(versions, expected, stop);
      assert items == [items[0]] + items[1..];
    }
  }

  lemma {:induction false} VariantsTidy<K>(versions: seq<Version>, ids: set<K>, items: seq<Item<K>>)
    requires Ascending(versions) && VariantsFrom(versions, ids, items, 0)
    ensures Tidy(versions, items, true)
  {
    VariantBounds(versions, ids, items, 0);
    forall v | v in versions ensures SelectedOk(items, v, true) {
      var i :| 0 <= i < |versions| && versions[i] == v;
      VariantsRoute(versions, ids, items, 0, i);
    }
  }

  function Ids(operations: seq<Operation>): seq<string> {
    seq(|operations|, k requires 0 <= k < |operations| => operations[k].id)
  }

  /** The range and endpoint loops of `validate_registry`, over the whole registry. */
  ghost predicate LoopsAccept(r: Registry) {
    && (forall k :: 0 <= k < |r.operations| ==> Accepted(r.versions, r.operations[k].ranges))
    && (forall k :: 0 <= k < |r.endpoints| ==>
          VariantsFrom(r.versions, ToSet(Ids(r.operations)), r.endpoints[k].variants, 0))
  }

  /** A registry that passes the validator's loops is what the patch steps start from. */
  lemma {:induction false} ValidatedWellFormed(r: Registry)
    requires r.versions != [] && Ascending(r.versions) && LoopsAccept(r)
    ensures WellFormed(r)
  {
    hide Accepted, VariantsFrom, Tidy, Ascending;
    forall k | 0 <= k < |r.operations| ensures Tidy(r.versions, r.operations[k].ranges, false) {
      AcceptedTidy(r.versions, r.operations[k].ranges);
    }
    forall k | 0 <= k < |r.endpoints| ensures Tidy(r.versions, r.endpoints[k].variants, true) {
      VariantsTidy(r.versions, ToSet(Ids(r.operations)), r.endpoints[k].variants);
    }
  }

  // ----- Matches under growth

  lemma {:induction false} MatchesOne<T>(item: Item<T>, v: Version)
    ensures Matches([item], v) == if Covers(item, v) then [item] else []
  {
  }

  lemma {:induction false} PointCovers<T>(item: Item<T>, point: Version, v: Version)
    requires item.minimum == item.maximum == point
    ensures Covers(item, v) <==> v == point
  {
  }

  lemma {:induction false} MatchesPush<T>(items: seq<Item<T>>, item: Item<T>, v: Version)
    ensures Matches(items + [item], v) == Matches(items, v) + (if Covers(item, v) then [item] else [])
  {
    MatchesAppend(items, [item], v);
    MatchesOne(item, v);
  }

  /** A point item at the end adds itself to the matches of its release, and to no other. */
  lemma {:induction false} PushPoint<T>(items: seq<Item<T>>, item: Item<T>, v: Version)
    requires item.minimum == item.maximum == v
    ensures forall u :: u != v ==> Matches(items + [item], u) == Matches(items, u)
    ensures Matches(items + [item], v) == Matches(items, v) + [item]
  {
    hide Matches, Covers;
    forall u ensures Matches(items + [item], u) == Matches(items, u) + (if u == v then [item] else []) {
      PointCovers(item, v, u);
      MatchesPush(items, item, u);
    }
    forall u | u != v ensures Matches(items + [item], u) == Matches(items, u) {
      assert Matches(items, u) + [] == Matches(items, u);
    }
  }

  /** Nothing with listed bounds reaches past the end of the list. */
  lemma {:induction false} NothingAfter<T>(versions: seq<Version>, items: seq<Item<T>>, v: Version)
    requires forall item :: item in items ==> Known(versions, item)
    requires forall u :: u in versions ==> Less(u, v)
    ensures Matches(items, v) == []
  {
    if items != [] {
      assert items[0] in items && Less(items[0].maximum, v);
      NothingAfter(versions, items[1..], v);
    }
  }

  lemma {:induction false} TidyKnown<T>(versions: seq<Version>, items: seq<Item<T>>, optional: bool)
    requires Tidy(versions, items, optional)
    ensures forall item :: item in items ==> Known(versions, item)
  {
    forall item | item in items ensures Known(versions, item) {}
  }

  /** A list grown by items that end at the new release is tidy on the longer list. */
  lemma {:induction false} TidyGrow<T>(versions: seq<Version>, before: seq<Item<T>>, after: seq<Item<T>>,
                                       v: Version, optional: bool)
    requires Tidy(versions, before, optional)
    requires forall item :: item in after ==>
               item in before || (item.maximum == v && item.minimum in versions + [v] && AtMost(item.minimum, v))
    requires forall u :: u in versions ==> |Matches(after, u)| == |Matches(before, u)|
    requires SelectedOk(after, v, optional)
    ensures Tidy(versions + [v], after, optional)
  {
    hide Matches, AtMost;
    forall item | item in after ensures Known(versions + [v], item) && AtMost(item.minimum, item.maximum) {
      assert item in before ==> Known(versions, item);
    }
    forall u | u in versions ensures SelectedOk(after, u, optional) {
      assert SelectedOk(before, u, optional);
    }
  }

  lemma {:induction false} SortedExtend(versions: seq<Version>, v: Version)
    requires Ascending(versions) && versions != [] && Less(versions[|versions| - 1], v)
    ensures Ascending(versions + [v])
    ensures forall u :: u in versions ==> Less(u, v)
  {
    forall u | u in versions ensures Less(u, v) {
      var i :| 0 <= i < |versions| && versions[i] == u;
      OrderIsPosition(versions, i, |versions| - 1);
    }
  }

  lemma {:induction false} LastIsGreatest(versions: seq<Version>)
    requires versions != [] && Ascending(versions)
    ensures forall u :: u in versions ==> AtMost(u, versions[|versions| - 1])
  {
    forall u | u in versions ensures AtMost(u, versions[|versions| - 1]) {
      var i :| 0 <= i < |versions| && versions[i] == u;
      OrderIsPosition(versions, i, |versions| - 1);
    }
  }

  lemma {:induction false} TidyItem<T>(versions: seq<Version>, items: seq<Item<T>>, optional: bool, item: Item<T>)
    requires Tidy(versions, items, optional) && item in items
    ensures item.maximum in versions && Covers(item, item.maximum)
    ensures SelectedOk(items, item.maximum, optional)
  {
    assert Known(versions, item);
  }

  lemma {:induction false} OnlyLast<T>(front: seq<Item<T>>, item: Item<T>, last: Version, optional: bool)
    requires Covers(item, last) && SelectedOk(front + [item], last, optional)
    ensures Matches(front + [item], last) == [item] && Matches(front, last) == []
  {
    MatchesAppend(front, [item], last);
    MatchesOne(item, last);
  }

  /** In a tidy list the last item is the only match of the release it ends at. */
  lemma {:induction false} LastMatches<T>(versions: seq<Version>, items: seq<Item<T>>, last: Version, optional: bool)
    requires Tidy(versions, items, optional) && items != [] && items[|items| - 1].maximum == last
    ensures last in versions
    ensures Matches(items, last) == [items[|items| - 1]]
    ensures Matches(items[..|items| - 1], last) == []
  {
    var front, item := items[..|items| - 1], items[|items| - 1];
    TidyItem(versions, items, optional, item);
    assert items == front + [item];
    OnlyLast(front, item, last, optional);
  }

  // ----- History and the new release

  predicate SameIdentity(a: Operation, b: Operation) {
    a.id == b.id && a.route == b.route && a.disposition == b.disposition
  }

  /** Every listed release is matched by as many items, and looked up to the same value, as before. */
  ghost predicate SameOn<T>(versions: seq<Version>, before: seq<Item<T>>, after: seq<Item<T>>) {
    forall v :: v in versions ==>
      |Matches(after, v)| == |Matches(before, v)| && Lookup(after, v) == Lookup(before, v)
  }

  /** The new release has exactly the value of its predecessor. */
  ghost predicate Inherits<T>(before: seq<Item<T>>, after: seq<Item<T>>, prior: Version, v: Version) {
    && |Matches(after, v)| == |Matches(before, prior)|
    && Lookup(after, v) == Lookup(before, prior)
  }

  ghost predicate OperationsKept(parent: Registry, child: Registry) {
    && |child.operations| >= |parent.operations|
    && forall i :: 0 <= i < |parent.operations| ==>
         && SameIdentity(child.operations[i], parent.operations[i])
         && SameOn(parent.versions, parent.operations[i].ranges, child.operations[i].ranges)
  }

  ghost predicate EndpointsKept(parent: Registry, child: Registry) {
    && |child.endpoints| >= |parent.endpoints|
    && forall i :: 0 <= i < |parent.endpoints| ==>
         && child.endpoints[i].id == parent.endpoints[i].id
         && SameOn(parent.versions, parent.endpoints[i].variants, child.endpoints[i].variants)
  }

  /** No lookup of a parent release changes. */
  ghost predicate KeepsHistory(parent: Registry, child: Registry) {
    OperationsKept(parent, child) && EndpointsKept(parent, child)
  }

  /** Keeping history is transitive along growing version lists. */
  lemma {:induction false} HistoryChain(a: Registry, b: Registry, c: Registry)
    requires KeepsHistory(a, b) && KeepsHistory(b, c) && forall v :: v in a.versions ==> v in b.versions
    ensures KeepsHistory(a, c)
  {
    hide Matches, Lookup;
  }

  ghost predicate InheritsAll(parent: Registry, child: Registry, prior: Version, v: Version)
    requires |child.operations| >= |parent.operations| && |child.endpoints| >= |parent.endpoints|
  {
    && (forall i :: 0 <= i < |parent.operations| ==>
          Inherits(parent.operations[i].ranges, child.operations[i].ranges, prior, v))
    && (forall i :: 0 <= i < |parent.endpoints| ==>
          Inherits(parent.endpoints[i].variants, child.endpoints[i].variants, prior, v))
  }

  lemma {:induction false} InheritsItem<T>(before: seq<Item<T>>, after: seq<Item<T>>, source: Item<T>, item: Item<T>,
                                           prior: Version, v: Version)
    requires Matches(before, prior) == [source] && source.value == item.value
    ensures Matches(after, v) == [item] ==> Inherits(before, after, prior, v)
  {
  }
}
