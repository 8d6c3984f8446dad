/** Matching a documented operation to an OpenAPI route: scores, method lookup and the
    selection of the single best route (scripts/generate_openbao_contract_matrix.py,
    path_segments, path_score, method_operation and the selection in openapi_contract). */
module RouteMatch {
  import opened Text
  import opened Sorting
  import opened PathVariants

  // ----- Scores

  function StripLeft(s: string): string {
    if s != [] && s[0] == '/' then StripLeft(s[1..]) else s
  }

  function StripRight(s: string): string {
    if s != [] && s[|s| - 1] == '/' then StripRight(s[..|s| - 1]) else s
  }

  function Segments(path: string): seq<string> {
    var stripped := StripRight(StripLeft(path));
    if stripped == [] then [] else Split(stripped, '/')
  }

  /** `:name`, `{name}` or `(name)`, up to a final newline. */
  predicate IsPlaceholder(segment: string) {
    Bracketed(segment) || (segment != [] && segment[|segment| - 1] == '\n' && Bracketed(segment[..|segment| - 1]))
  }

  predicate Bracketed(s: string) {
    var n := |s|;
    || (n >= 2 && s[0] == ':' && '/' !in s[1..])
    || (n >= 3 && s[0] == '{' && s[n - 1] == '}' && '/' !in s[1..n - 1])
    || (n >= 3 && s[0] == '(' && s[n - 1] == ')' && '/' !in s[1..n - 1])
  }

  function RemoveSuffix(s: string, suffix: string): string {
    if |suffix| <= |s| && s[|s| - |suffix|..] == suffix then s[..|s| - |suffix|] else s
  }

  predicate Contains(s: string, part: string) {
    Find(s, part).Some?
  }

  /** The score of one pair of segments; None rules the whole candidate out. `norm` is
      `normalized_token` and stays arbitrary: nothing below depends on it. */
  function PairScore(expected: string, actual: string, tokens: set<string>, norm: string -> string): Option<nat> {
    if expected == actual then Some(100)
    else if IsPlaceholder(expected) && IsPlaceholder(actual) then Some(20)
    else if IsPlaceholder(actual) then
      var variable, token := norm(actual), norm(expected);
      if token != "" && Contains(variable, token) then Some(80)
      else if exists t :: t in tokens && t != "" && Contains(variable, t) then Some(60)
      else Some(5)
    else if IsPlaceholder(expected) then Some(10)
    else None
  }

  function Tokens(source: string, norm: string -> string): set<string> {
    var items := Split(RemoveSuffix(source, ".mdx"), '/');
    set item | item in items :: norm(item)
  }

  /** Sum over the first pairs; None as soon as one pair is ruled out. */
  function Total(left: seq<string>, right: seq<string>, tokens: set<string>, norm: string -> string): Option<nat>
    requires |left| == |right|
  {
    if left == [] then Some(0)
    else
      var n := |left| - 1;
      var rest, last := Total(left[..n], right[..n], tokens, norm), PairScore(left[n], right[n], tokens, norm);
      if rest.None? || last.None? then None else Some(rest.value + last.value)
  }

  function Score(documented: string, candidate: string, source: string, norm: string -> string): Option<nat> {
    var left, right := Segments(documented), Segments(candidate);
    if |left| != |right| then None else Total(left, right, Tokens(source, norm), norm)
  }

  lemma {:induction false} TotalPrefix(left: seq<string>, right: seq<string>, k: nat, tokens: set<string>,
                                       norm: string -> string)
    requires |left| == |right| && k <= |left|
    requires Total(left[..k], right[..k], tokens, norm).None?
    ensures Total(left, right, tokens, norm).None?
    decreases |left|
  {
    var n := |left|;
    if k < n {
      assert left[..n - 1][..k] == left[..k] && right[..n - 1][..k] == right[..k];
      TotalPrefix(left[..n - 1], right[..n - 1], k, tokens, norm);
    } else {
      assert left[..k] == left && right[..k] == right;
    }
  }

  lemma {:induction false} TotalNext(left: seq<string>, right: seq<string>, k: nat, tokens: set<string>,
                                     norm: string -> string)
    requires |left| == |right| && k < |left| && Total(left[..k], right[..k], tokens, norm).Some?
    ensures var rest, last := Total(left[..k], right[..k], tokens, norm), PairScore(left[k], right[k], tokens, norm);
            Total(left[..k + 1], right[..k + 1], tokens, norm)
              == if last.None? then None else Some(rest.value + last.value)
  {
    assert left[..k + 1][..k] == left[..k] && right[..k + 1][..k] == right[..k];
    hide PairScore;
  }

  /** `path_score` */
  method PathScore(documented: string, candidate: string, source: string,
                   norm: string -> string) returns (score: Option<nat>)
    ensures score == Score(documented, candidate, source, norm)
  {
    var left, right := Segments(documented), Segments(candidate);
    if |left| != |right| {
      return None;
    }
    var tokens := Tokens(source, norm);
    var sum, k := 0, 0;
    assert left[..0] == [] && right[..0] == [];
    assert Total([], [], tokens, norm) == Some(0);
    hide PairScore, Tokens, Segments, Total;
    while k < |left|
      invariant 0 <= k <= |left|
      invariant Total(left[..k], right[..k], tokens, norm) == Some(sum)
    {
      TotalNext(left, right, k, tokens, norm);
      var pair := PairScore(left[k], right[k], tokens, norm);
      if pair.None? {
        TotalPrefix(left, right, k + 1, tokens, norm);
        return None;
      }
      sum := sum + pair.value;
      k := k + 1;
    }
    assert left[..k] == left && right[..k] == right;
    score := Some(sum);
  }

  /** Equal segments score 100 each; any difference costs at least 20. */
  lemma {:induction false} TotalBound(left: seq<string>, right: seq<string>, tokens: set<string>,
                                      norm: string -> string)
    requires |left| == |right|
    ensures left == right ==> Total(left, right, tokens, norm) == Some(100 * |left|)
    ensures left != right ==>
              match Total(left, right, tokens, norm) case Some(n) => n + 20 <= 100 * |left| case None => true
  {
    if left != [] {
      var n := |left| - 1;
      TotalBound(left[..n], right[..n], tokens, norm);
      assert left == left[..n] + [left[n]] && right == right[..n] + [right[n]];
    }
  }

  // ----- Methods

  /** An OpenAPI operation: its identity and the names of its parameters. */
  datatype Operation = Operation(id: string, parameters: set<string>)

  /** The object-valued members of a path item, by key. */
  type PathItem = map<string, Operation>

  const HTTP_METHODS := map[
    "GET" := "get", "HEAD" := "head", "POST" := "post", "PUT" := "put", "PATCH" := "patch", "DELETE" := "delete"]

  function MethodOperation(verb: string, item: PathItem): Option<(string, Operation)> {
    if verb in HTTP_METHODS then
      var key := HTTP_METHODS[verb];
      if key in item then Some((key, item[key])) else None
    else if verb == "LIST" || verb == "SCAN" then
      if "get" !in item then None
      else if (if verb == "LIST" then "list" else "scan") in item["get"].parameters then Some(("get", item["get"]))
      else None
    else None
  }

  // ----- Selection

  /** What is looked for. */
  datatype Query = Query(verb: string, path: string, source: string)

  /** The best score of any variant against a candidate. */
  function BestOf(variants: seq<string>, candidate: string, source: string, norm: string -> string): Option<nat> {
    if variants == [] then None
    else
      var n := |variants| - 1;
      var rest, last := BestOf(variants[..n], candidate, source, norm), Score(variants[n], candidate, source, norm);
      if rest.None? then last
      else if last.None? || last.value <= rest.value then rest
      else last
  }

  /** A candidate's score: it must support the method and match some variant. */
  function Rank(q: Query, candidate: string, item: PathItem, norm: string -> string): Option<nat> {
    if MethodOperation(q.verb, item).None? then None
    else BestOf(VariantList(q.path), candidate, q.source, norm)
  }

  /** The candidates of the highest rank. */
  ghost predicate Winner(q: Query, paths: map<string, PathItem>, p: string, norm: string -> string) {
    && p in paths && Rank(q, p, paths[p], norm).Some?
    && forall o :: o in paths && Rank(q, o, paths[o], norm).Some? ==>
         Rank(q, o, paths[o], norm).value <= Rank(q, p, paths[p], norm).value
  }

  datatype Selection =
    | Absent
    | Ambiguous(candidates: seq<string>)
    | Exact(path: string, verb: string, operation: Operation)

  /** What the selection means, whatever order the paths are enumerated in: nothing when no
      path qualifies, the winner when there is one, and otherwise all of them, sorted. */
  ghost predicate Selects(q: Query, paths: map<string, PathItem>, norm: string -> string, s: Selection) {
    match s
    case Absent => forall p :: !Winner(q, paths, p, norm)
    case Exact(p, verb, operation) =>
      && (forall o :: Winner(q, paths, o, norm) <==> o == p)
      && p in paths && MethodOperation(q.verb, paths[p]) == Some((verb, operation))
    case Ambiguous(list) =>
      && |list| >= 2 && StrictlySorted(list, StringLess)
      && forall o :: Winner(q, paths, o, norm) <==> o in list
  }

  function Chosen(s: Selection): seq<string> {
    match s
    case Absent => []
    case Exact(p, _, _) => [p]
    case Ambiguous(list) => list
  }

  /** The outcome is a function of the set of paths: no enumeration order, and no tie, is
      ever resolved silently. */
  lemma {:induction false} SelectionUnique(q: Query, paths: map<string, PathItem>,
                                           norm: string -> string, a: Selection, b: Selection)
    requires Selects(q, paths, norm, a) && Selects(q, paths, norm, b)
    ensures a == b
  {
    hide Winner, MethodOperation;
    StringOrder();
    forall s | s == a || s == b
      ensures StrictlySorted(Chosen(s), StringLess)
      ensures forall o :: Winner(q, paths, o, norm) <==> o in ToSet(Chosen(s))
    {
    }
    assert ToSet(Chosen(a)) == ToSet(Chosen(b));
    SortedUnique(Chosen(a), Chosen(b), StringLess);
  }

  // ----- The selection loop

  method BestScore(variants: seq<string>, candidate: string, source: string,
                   norm: string -> string) returns (best: Option<nat>)
    ensures best == BestOf(variants, candidate, source, norm)
  {
    best := None;
    var k := 0;
    assert variants[..0] == [];
    while k < |variants|
      invariant 0 <= k <= |variants|
      invariant best == BestOf(variants[..k], candidate, source, norm)
    {
      assert variants[..k + 1][..k] == variants[..k];
      var score := PathScore(variants[k], candidate, source, norm);
      if score.Some? && (best.None? || best.value < score.value) {
        best := score;
      }
      k := k + 1;
    }
    assert variants[..k] == variants;
  }

  /** The best candidates among the paths seen so far. */
  ghost predicate Leading(q: Query, paths: map<string, PathItem>, seen: set<string>,
                          norm: string -> string, best: Option<nat>, leaders: seq<string>) {
    && (forall o :: o in seen && o in paths && Rank(q, o, paths[o], norm).Some? ==>
          best.Some? && Rank(q, o, paths[o], norm).value <= best.value)
    && (best.None? ==> leaders == [])
    && (best.Some? ==> leaders != [])
    && Distinct(leaders)
    && (forall o :: o in leaders <==> o in seen && o in paths && best.Some? && Rank(q, o, paths[o], norm) == best)
  }

  lemma {:induction false} LeadStep(q: Query, paths: map<string, PathItem>, seen: set<string>,
                                    norm: string -> string, best: Option<nat>, leaders: seq<string>, p: string)
    requires Leading(q, paths, seen, norm, best, leaders) && p in paths && p !in seen
    ensures var rank := Rank(q, p, paths[p], norm);
            if rank.None? || (best.Some? && rank.value < best.value)
            then Leading(q, paths, seen + {p}, norm, best, leaders)
            else if best.Some? && rank == best then Leading(q, paths, seen + {p}, norm, best, leaders + [p])
            else Leading(q, paths, seen + {p}, norm, rank, [p])
  {
    hide Rank;
    var rank := Rank(q, p, paths[p], norm);
    assert best.Some? && rank == best ==> p in leaders + [p];
    forall o ensures o in leaders + [p] <==> o in leaders || o == p {}
  }

  lemma {:induction false} LeadersWin(q: Query, paths: map<string, PathItem>,
                                      norm: string -> string, best: Option<nat>, leaders: seq<string>)
    requires Leading(q, paths, paths.Keys, norm, best, leaders)
    ensures forall o :: Winner(q, paths, o, norm) <==> o in leaders
  {
    hide Rank;
    assert leaders != [] ==> leaders[0] in leaders;
  }

  /** The matching part of `openapi_contract`; `order` is the enumeration of the paths. */
  method Select(q: Query, paths: map<string, PathItem>, order: seq<string>,
                norm: string -> string) returns (s: Selection)
    requires Distinct(order) && ToSet(order) == paths.Keys
    ensures Selects(q, paths, norm, s)
  {
    var variants := Variants(q.path);
    var best: Option<nat>, leaders: seq<string>, k := None, [], 0;
    assert ToSet(order[..0]) == {};
    while k < |order|
      invariant 0 <= k <= |order|
      invariant variants == VariantList(q.path)
      invariant Leading(q, paths, ToSet(order[..k]), norm, best, leaders)
    {
      var p := order[k];
      assert p in ToSet(order);
      assert order[..k + 1] == order[..k] + [p];
      assert ToSet(order[..k + 1]) == ToSet(order[..k]) + {p} && p !in ToSet(order[..k]);
      LeadStep(q, paths, ToSet(order[..k]), norm, best, leaders, p);
      hide Leading;
      var rank := None;
      if MethodOperation(q.verb, paths[p]).Some? {
        rank := BestScore(variants, p, q.source, norm);
      }
      assert rank == Rank(q, p, paths[p], norm);
      if rank.Some? && (best.None? || best.value <= rank.value) {
        leaders := if best == rank then leaders + [p] else [p];
        best := rank;
      }
      k := k + 1;
    }
    assert order[..k] == order;
    LeadersWin(q, paths, norm, best, leaders);
    if leaders == [] {
      s := Absent;
    } else if |leaders| == 1 {
      var p := leaders[0];
      assert p in leaders && Winner(q, paths, p, norm);
      var found := MethodOperation(q.verb, paths[p]).value;
      s := Exact(p, found.0, found.1);
    } else {
      SortKeeps(leaders);
      s := Ambiguous(SortedSet(leaders, StringLess));
    }
  }

  lemma {:induction false} SortKeeps(list: seq<string>)
    requires Distinct(list)
    ensures var sorted := SortedSet(list, StringLess);
            StrictlySorted(sorted, StringLess) && |sorted| == |list| && forall x :: x in sorted <==> x in list
  {
    StringOrder();
    SortedSetSorted(list, StringLess);
    var sorted := SortedSet(list, StringLess);
    forall i, j | 0 <= i < j < |sorted| ensures sorted[i] != sorted[j] {
      StringLessIrreflexive(sorted[i]);
    }
    DistinctSize(list);
    DistinctSize(sorted);
    forall x ensures x in sorted <==> x in list {
      assert x in ToSet(sorted) <==> x in ToSet(list);
    }
  }

  // ----- An exact path is always found

  lemma {:induction false} SingleVariant(path: string)
    requires Search(Base(path)).None?
    ensures VariantList(path) == [Base(path)]
  {
    assert Normal(Base(path)) == [Base(path)];
    assert SortedSet([Base(path)], StringLess) == [Base(path)];
  }

  lemma {:induction false} RankSingle(q: Query, candidate: string, item: PathItem, norm: string -> string)
    requires Search(Base(q.path)).None? && MethodOperation(q.verb, item).Some?
    ensures Rank(q, candidate, item, norm) == Score(Base(q.path), candidate, q.source, norm)
  {
    SingleVariant(q.path);
    var variants := [Base(q.path)];
    assert variants[..0] == [];
    assert BestOf(variants, candidate, q.source, norm) == Score(Base(q.path), candidate, q.source, norm);
  }

  /** For a path without optional segments: if exactly one candidate supports the method and
      has the documented segments, it wins alone, at least 20 points ahead. */
  lemma {:induction false} ExactPathWins(q: Query, paths: map<string, PathItem>, p: string, norm: string -> string)
    requires Search(Base(q.path)).None?
    requires forall o ::
      (o in paths && MethodOperation(q.verb, paths[o]).Some? && Segments(o) == Segments(Base(q.path))) <==> o == p
    ensures forall o :: Winner(q, paths, o, norm) <==> o == p
    ensures p in paths && Rank(q, p, paths[p], norm).Some?
    ensures forall o :: o in paths && o != p && Rank(q, o, paths[o], norm).Some? ==>
              Rank(q, o, paths[o], norm).value + 20 <= Rank(q, p, paths[p], norm).value
  {
    var left, tokens := Segments(Base(q.path)), Tokens(q.source, norm);
    RankSingle(q, p, paths[p], norm);
    TotalBound(left, Segments(p), tokens, norm);
    assert Rank(q, p, paths[p], norm) == Some(100 * |left|);
    forall o | o in paths && o != p && Rank(q, o, paths[o], norm).Some?
      ensures Rank(q, o, paths[o], norm).value + 20 <= 100 * |left|
    {
      RankSingle(q, o, paths[o], norm);
      TotalBound(left, Segments(o), tokens, norm);
    }
    hide Rank;
  }
}
