/** Headings as a tree: every heading's parent is the nearest earlier one of a smaller level.
    The recursive walk over children, pruned at some nodes, is compared with a plain scan in
    heading order (scripts/openbao_documentation_v2.py, the tree behind parse and fields_for). */
module Outline {
  import opened Text

  /** The root has level 0, every heading a positive level. */
  ghost predicate Levels(levels: seq<nat>) {
    levels != [] && levels[0] == 0 && forall k :: 0 < k < |levels| ==> levels[k] > 0
  }

  /** The last of the first `k` nodes whose level is below `level`. */
  function NearestBelow(levels: seq<nat>, k: nat, level: nat): (i: nat)
    requires 0 < k <= |levels| && levels[0] < level
    ensures i < k && levels[i] < level
    ensures forall j :: i < j < k ==> levels[j] >= level
  {
    if levels[k - 1] < level then k - 1 else NearestBelow(levels, k - 1, level)
  }

  function Parent(levels: seq<nat>, j: nat): (i: nat)
    requires 0 < j < |levels| && levels[0] < levels[j]
    ensures i < j
  {
    NearestBelow(levels, j, levels[j])
  }

  predicate Child(levels: seq<nat>, i: nat, c: nat)
    requires Levels(levels)
  {
    0 < c < |levels| && Parent(levels, c) == i
  }

  /** The children of `i` among the first `n` nodes, in heading order, each shown by `nodes`. */
  function Kids<T>(levels: seq<nat>, nodes: seq<T>, i: nat, n: nat): seq<T>
    requires Levels(levels) && n <= |levels| && |nodes| == |levels|
  {
    if n == 0 then []
    else Kids(levels, nodes, i, n - 1) + (if Child(levels, i, n - 1) then [nodes[n - 1]] else [])
  }

  // ----- Adding a heading at the end

  lemma {:induction false} NearestPrefix(levels: seq<nat>, k: nat, level: nat, more: nat)
    requires 0 < k <= |levels| && levels[0] < level
    ensures NearestBelow(levels + [more], k, level) == NearestBelow(levels, k, level)
  {
    if k > 1 && levels[k - 1] >= level {
      NearestPrefix(levels, k - 1, level, more);
    }
  }

  lemma {:induction false} ChildPrefix(levels: seq<nat>, i: nat, c: nat, more: nat)
    requires Levels(levels) && more > 0 && c < |levels|
    ensures Child(levels + [more], i, c) == Child(levels, i, c)
  {
    if 0 < c {
      NearestPrefix(levels, c, levels[c], more);
    }
  }

  lemma {:induction false} KidsPrefix<T>(levels: seq<nat>, nodes: seq<T>, i: nat, n: nat, more: nat, node: T)
    requires Levels(levels) && n <= |levels| && |nodes| == |levels| && more > 0
    ensures Kids(levels + [more], nodes + [node], i, n) == Kids(levels, nodes, i, n)
  {
    if n > 0 {
      KidsPrefix(levels, nodes, i, n - 1, more, node);
      ChildPrefix(levels, i, n - 1, more);
    }
  }

  /** The new heading becomes the last child of the nearest earlier heading below its level. */
  lemma {:induction false} KidsStep<T>(levels: seq<nat>, nodes: seq<T>, i: nat, more: nat, node: T)
    requires Levels(levels) && |nodes| == |levels| && more > 0
    ensures Kids(levels + [more], nodes + [node], i, |levels| + 1)
         == Kids(levels, nodes, i, |levels|) + (if NearestBelow(levels, |levels|, more) == i then [node] else [])
  {
    KidsPrefix(levels, nodes, i, |levels|, more, node);
    NearestPrefix(levels, |levels|, more, more);
  }

  /** Nodes at or above `level` do not matter to the search. */
  lemma {:induction false} SkipDeep(levels: seq<nat>, p: nat, c: nat, level: nat)
    requires p <= c < |levels| && levels[0] < level
    requires forall j :: p < j <= c ==> levels[j] >= level
    ensures NearestBelow(levels, c + 1, level) == NearestBelow(levels, p + 1, level)
  {
    if p < c {
      SkipDeep(levels, p, c - 1, level);
    }
  }

  // ----- The open headings

  /** The chain of headings still open at the end: from the root to the last one, each a
      child of the one before. */
  ghost predicate Spine(levels: seq<nat>, spine: seq<nat>)
    requires Levels(levels)
  {
    && spine != [] && spine[0] == 0
    && (forall t :: 0 <= t < |spine| ==> spine[t] < |levels|)
    && (forall t :: 0 < t < |spine| ==> Child(levels, spine[t - 1], spine[t]))
  }

  /** Closing a heading that is too deep moves the search to its parent. */
  lemma {:induction false} PopSpine(levels: seq<nat>, spine: seq<nat>, level: nat)
    requires Levels(levels) && Spine(levels, spine) && level > 0
    requires levels[spine[|spine| - 1]] >= level
    ensures |spine| > 1 && Spine(levels, spine[..|spine| - 1])
    ensures NearestBelow(levels, spine[|spine| - 1] + 1, level) == NearestBelow(levels, spine[|spine| - 2] + 1, level)
  {
    SkipDeep(levels, spine[|spine| - 2], spine[|spine| - 1], level);
  }

  lemma {:induction false} PushSpine(levels: seq<nat>, spine: seq<nat>, level: nat)
    requires Levels(levels) && Spine(levels, spine) && level > 0
    requires NearestBelow(levels, |levels|, level) == spine[|spine| - 1]
    ensures Levels(levels + [level]) && Spine(levels + [level], spine + [|levels|])
  {
    var more := spine + [|levels|];
    NearestPrefix(levels, |levels|, level, level);
    forall t | 0 < t < |more| ensures Child(levels + [level], more[t - 1], more[t]) {
      if t < |spine| {
        ChildPrefix(levels, spine[t - 1], spine[t], level);
      }
    }
  }

  // ----- The recursive walk

  /** `stop` marks the nodes at which the walk does not enter a child. */
  function Walk(levels: seq<nat>, stop: seq<bool>, i: nat, n: nat): seq<nat>
    requires Levels(levels) && |stop| == |levels| && i < n <= |levels|
    decreases n - i, 1, 0
  {
    [i] + Forest(levels, stop, i, n, n)
  }

  /** The walks from the children among the first `m` nodes, in heading order. */
  function Forest(levels: seq<nat>, stop: seq<bool>, i: nat, m: nat, n: nat): seq<nat>
    requires Levels(levels) && |stop| == |levels| && i < n <= |levels| && m <= n
    decreases n - i, 0, m
  {
    if m == 0 then []
    else
      Forest(levels, stop, i, m - 1, n)
        + (if Child(levels, i, m - 1) && !stop[m - 1] then Walk(levels, stop, m - 1, n) else [])
  }

  lemma {:induction false} ForestEnter(levels: seq<nat>, stop: seq<bool>, i: nat, c: nat, n: nat)
    requires Levels(levels) && |stop| == |levels| && i < n <= |levels| && c < n
    requires Child(levels, i, c) && !stop[c]
    ensures Forest(levels, stop, i, c + 1, n) == Forest(levels, stop, i, c, n) + ([c] + Forest(levels, stop, c, n, n))
  {
    assert Walk(levels, stop, c, n) == [c] + Forest(levels, stop, c, n, n);
  }

  lemma {:induction false} KidsGrow<T>(levels: seq<nat>, nodes: seq<T>, i: nat, m: nat, n: nat)
    requires Levels(levels) && |nodes| == |levels| && m <= n <= |levels|
    ensures Kids(levels, nodes, i, m) <= Kids(levels, nodes, i, n)
    decreases n
  {
    if m < n {
      KidsGrow(levels, nodes, i, m, n - 1);
    }
  }

  /** The first child among the nodes from `m` on. */
  lemma {:induction false} NextKid<T>(levels: seq<nat>, nodes: seq<T>, i: nat, m: nat, n: nat) returns (c: nat)
    requires Levels(levels) && |nodes| == |levels| && m <= n <= |levels|
    requires |Kids(levels, nodes, i, m)| < |Kids(levels, nodes, i, n)|
    ensures m <= c < n && Child(levels, i, c)
    ensures Kids(levels, nodes, i, c) == Kids(levels, nodes, i, m)
    ensures Kids(levels, nodes, i, n)[|Kids(levels, nodes, i, m)|] == nodes[c]
    decreases n
  {
    hide Kids, Child, Levels;
    KidsGrow(levels, nodes, i, m, n - 1);
    KidsSnoc(levels, nodes, i, n);
    var early, before := Kids(levels, nodes, i, m), Kids(levels, nodes, i, n - 1);
    if |before| > |early| {
      c := NextKid(levels, nodes, i, m, n - 1);
    } else {
      assert before == early;
      c := n - 1;
    }
  }

  lemma {:induction false} KidsSnoc<T>(levels: seq<nat>, nodes: seq<T>, i: nat, n: nat)
    requires Levels(levels) && |nodes| == |levels| && 0 < n <= |levels|
    ensures Kids(levels, nodes, i, n)
         == Kids(levels, nodes, i, n - 1) + (if Child(levels, i, n - 1) then [nodes[n - 1]] else [])
  {
  }

  /** Where no child is added, nothing is walked. */
  lemma {:induction false} ForestQuiet<T>(levels: seq<nat>, nodes: seq<T>, stop: seq<bool>, i: nat, m: nat, m': nat,
                                          n: nat)
    requires Levels(levels) && |stop| == |nodes| == |levels| && i < n <= |levels| && m <= m' <= n
    requires |Kids(levels, nodes, i, m)| == |Kids(levels, nodes, i, m')|
    ensures Forest(levels, stop, i, m, n) == Forest(levels, stop, i, m', n)
    decreases m'
  {
    if m < m' {
      hide Child, Walk, Kids;
      KidsGrow(levels, nodes, i, m, m' - 1);
      KidsSnoc(levels, nodes, i, m');
      ForestQuiet(levels, nodes, stop, i, m, m' - 1, n);
    }
  }

  lemma {:induction false} ForestSnoc(levels: seq<nat>, stop: seq<bool>, i: nat, m: nat, n: nat)
    requires Levels(levels) && |stop| == |levels| && i < n <= |levels| && 0 < m <= n
    ensures Forest(levels, stop, i, m - 1, n) <= Forest(levels, stop, i, m, n)
  {
    hide Child, Walk, Parent;
  }

  lemma {:induction false} ForestGrow(levels: seq<nat>, stop: seq<bool>, i: nat, m: nat, m': nat, n: nat)
    requires Levels(levels) && |stop| == |levels| && i < n <= |levels| && m <= m' <= n
    ensures Forest(levels, stop, i, m, n) <= Forest(levels, stop, i, m', n)
    decreases m'
  {
    hide Child, Walk, Parent;
    if m < m' {
      ForestGrow(levels, stop, i, m, m' - 1, n);
      ForestSnoc(levels, stop, i, m', n);
    }
  }

  // ----- The scan in heading order

  /** `j` hangs below `i`, with no stop on the way from `j` up to `i`. */
  predicate Reaches(levels: seq<nat>, stop: seq<bool>, j: nat, i: nat)
    requires Levels(levels) && |stop| == |levels| && j < |levels|
    decreases j
  {
    j == i || (i < j && !stop[j] && Reaches(levels, stop, Parent(levels, j), i))
  }

  function Scan(levels: seq<nat>, stop: seq<bool>, i: nat, n: nat): seq<nat>
    requires Levels(levels) && |stop| == |levels| && n <= |levels|
  {
    if n == 0 then []
    else Scan(levels, stop, i, n - 1) + (if Reaches(levels, stop, n - 1, i) then [n - 1] else [])
  }

  /** Everything between a node and one that hangs below it is deeper than the node. */
  lemma {:induction false} BelowIsDeeper(levels: seq<nat>, stop: seq<bool>, j: nat, c: nat)
    requires Levels(levels) && |stop| == |levels| && c < j < |levels| && Reaches(levels, stop, j, c)
    ensures forall k :: c < k <= j ==> levels[k] > levels[c]
    decreases j
  {
    var p := Parent(levels, j);
    if p != c {
      BelowIsDeeper(levels, stop, p, c);
    }
  }

  /** A node hangs below at most the last of its elder siblings. */
  lemma {:induction false} NotBelowEarlier(levels: seq<nat>, stop: seq<bool>, i: nat, c: nat, later: nat, j: nat)
    requires Levels(levels) && |stop| == |levels| && i < c < later <= j < |levels|
    requires Child(levels, i, later)
    ensures !Reaches(levels, stop, j, c)
  {
    if later < j {
      if Reaches(levels, stop, j, c) {
        BelowIsDeeper(levels, stop, j, c);
      }
    }
  }

  /** Some child of `i` among the first `m` nodes, itself no stop, reaches down to `j`. */
  predicate Via(levels: seq<nat>, stop: seq<bool>, i: nat, m: nat, j: nat)
    requires Levels(levels) && |stop| == |levels| && m <= |levels| && j < |levels|
    decreases m
  {
    m > 0 && (Via(levels, stop, i, m - 1, j)
              || (Child(levels, i, m - 1) && !stop[m - 1] && Reaches(levels, stop, j, m - 1)))
  }

  lemma {:induction false} NotViaEarlier(levels: seq<nat>, stop: seq<bool>, i: nat, m: nat, later: nat, j: nat)
    requires Levels(levels) && |stop| == |levels| && m <= later <= j < |levels| && Child(levels, i, later)
    ensures !Via(levels, stop, i, m, j)
    decreases m
  {
    if m > 0 {
      NotViaEarlier(levels, stop, i, m - 1, later, j);
      if Child(levels, i, m - 1) {
        NotBelowEarlier(levels, stop, i, m - 1, later, j);
      }
    }
  }

  /** A child before `j` reaches `j` exactly when it reaches the parent of `j`. */
  lemma {:induction false} ViaParent(levels: seq<nat>, stop: seq<bool>, i: nat, m: nat, j: nat)
    requires Levels(levels) && |stop| == |levels| && 0 < j < |levels| && m <= j
    ensures Via(levels, stop, i, m, j) <==> !stop[j] && Via(levels, stop, i, m, Parent(levels, j))
    decreases m
  {
    if m > 0 {
      ViaParent(levels, stop, i, m - 1, j);
    }
  }

  /** Children after `p` do not reach `p`. */
  lemma {:induction false} ViaCap(levels: seq<nat>, stop: seq<bool>, i: nat, m: nat, p: nat)
    requires Levels(levels) && |stop| == |levels| && p < m <= |levels|
    ensures Via(levels, stop, i, m, p) <==> Via(levels, stop, i, p + 1, p)
    decreases m
  {
    if m > p + 1 {
      ViaCap(levels, stop, i, m - 1, p);
    }
  }

  lemma {:induction false} NotViaAbove(levels: seq<nat>, stop: seq<bool>, i: nat, m: nat, p: nat)
    requires Levels(levels) && |stop| == |levels| && m <= |levels| && p < |levels| && p <= i
    ensures !Via(levels, stop, i, m, p)
    decreases m
  {
    if m > 0 {
      NotViaAbove(levels, stop, i, m - 1, p);
    }
  }

  /** A proper descendant is reached through exactly one child. */
  lemma {:induction false} ReachesVia(levels: seq<nat>, stop: seq<bool>, i: nat, j: nat)
    requires Levels(levels) && |stop| == |levels| && i < j < |levels|
    ensures Reaches(levels, stop, j, i) <==> Via(levels, stop, i, j + 1, j)
    decreases j
  {
    var p := Parent(levels, j);
    if p == i {
      NotViaEarlier(levels, stop, i, j, j, j);
    } else {
      ViaParent(levels, stop, i, j, j);
      if p < i {
        NotViaAbove(levels, stop, i, j, p);
      } else {
        ViaCap(levels, stop, i, j, p);
        ReachesVia(levels, stop, i, p);
      }
    }
  }

  // ----- Walk and scan agree

  lemma {:induction false} NoKidsYet(levels: seq<nat>, stop: seq<bool>, i: nat, m: nat, n: nat)
    requires Levels(levels) && |stop| == |levels| && i < n <= |levels| && m <= n && m <= i + 1
    ensures Forest(levels, stop, i, m, n) == []
    decreases m
  {
    if m > 0 {
      NoKidsYet(levels, stop, i, m - 1, n);
    }
  }

  /** One more node at the end: the walk from `i` grows by it exactly when it is reached. */
  lemma {:induction false} WalkStep(levels: seq<nat>, stop: seq<bool>, i: nat, n: nat)
    requires Levels(levels) && |stop| == |levels| && i < n < |levels|
    ensures Walk(levels, stop, i, n + 1)
         == Walk(levels, stop, i, n) + (if Reaches(levels, stop, n, i) then [n] else [])
    decreases n - i, 1, 0
  {
    ForestStep(levels, stop, i, n, n);
    ReachesVia(levels, stop, i, n);
    NoKidsYet(levels, stop, n, n + 1, n + 1);
    if Child(levels, i, n) {
      NotViaEarlier(levels, stop, i, n, n, n);
    }
    var before := Forest(levels, stop, i, n, n);
    assert Walk(levels, stop, n, n + 1) == [n];
    assert Forest(levels, stop, i, n + 1, n + 1)
        == before + (if Reaches(levels, stop, n, i) then [n] else []);
    AppendAssoc([i], before, if Reaches(levels, stop, n, i) then [n] else []);
  }

  lemma {:induction false} ForestStep(levels: seq<nat>, stop: seq<bool>, i: nat, m: nat, n: nat)
    requires Levels(levels) && |stop| == |levels| && i < n < |levels| && m <= n
    ensures Forest(levels, stop, i, m, n + 1)
         == Forest(levels, stop, i, m, n) + (if Via(levels, stop, i, m, n) then [n] else [])
    decreases n - i, 0, m
  {
    if m > 0 {
      ForestStep(levels, stop, i, m - 1, n);
      var before := Forest(levels, stop, i, m - 1, n);
      if Child(levels, i, m - 1) && !stop[m - 1] {
        WalkStep(levels, stop, m - 1, n);
        NotViaEarlier(levels, stop, i, m - 1, m - 1, n);
        hide Reaches, Child, Walk, Parent;
        assert Forest(levels, stop, i, m - 1, n + 1) == before;
        AppendAssoc(before, Walk(levels, stop, m - 1, n), if Reaches(levels, stop, n, m - 1) then [n] else []);
      } else {
        hide Reaches, Child, Walk, Parent;
        assert Forest(levels, stop, i, m, n) == before;
      }
    }
  }

  lemma {:induction false} NothingBefore(levels: seq<nat>, stop: seq<bool>, i: nat, n: nat)
    requires Levels(levels) && |stop| == |levels| && n <= |levels| && n <= i
    ensures Scan(levels, stop, i, n) == []
  {
    if n > 0 {
      NothingBefore(levels, stop, i, n - 1);
    }
  }

  /** The recursive walk visits exactly the nodes the scan finds, in heading order. */
  lemma {:induction false} WalkIsScan(levels: seq<nat>, stop: seq<bool>, i: nat, n: nat)
    requires Levels(levels) && |stop| == |levels| && i < n <= |levels|
    ensures Walk(levels, stop, i, n) == Scan(levels, stop, i, n)
    decreases n
  {
    if n == i + 1 {
      NoKidsYet(levels, stop, i, n, n);
      NothingBefore(levels, stop, i, i);
    } else {
      WalkIsScan(levels, stop, i, n - 1);
      WalkStep(levels, stop, i, n - 1);
      hide Walk, Reaches;
    }
  }

  /** Without stops, the preorder of the tree is the heading order. */
  lemma {:induction false} PreorderIsHeadingOrder(levels: seq<nat>, stop: seq<bool>, n: nat)
    requires Levels(levels) && |stop| == |levels| && 0 < n <= |levels|
    requires forall k :: 0 <= k < |stop| ==> !stop[k]
    ensures Walk(levels, stop, 0, n) == seq(n, k => k)
  {
    WalkIsScan(levels, stop, 0, n);
    ScanAll(levels, stop, n);
  }

  lemma {:induction false} ScanAll(levels: seq<nat>, stop: seq<bool>, n: nat)
    requires Levels(levels) && |stop| == |levels| && 0 < n <= |levels|
    requires forall k :: 0 <= k < |stop| ==> !stop[k]
    ensures Scan(levels, stop, 0, n) == seq(n, k => k)
  {
    if n > 1 {
      ScanAll(levels, stop, n - 1);
      RootReaches(levels, stop, n - 1);
    }
  }

  lemma {:induction false} RootReaches(levels: seq<nat>, stop: seq<bool>, j: nat)
    requires Levels(levels) && |stop| == |levels| && j < |levels|
    requires forall k :: 0 <= k < |stop| ==> !stop[k]
    ensures Reaches(levels, stop, j, 0)
  {
    if j > 0 {
      RootReaches(levels, stop, Parent(levels, j));
    }
  }

  // ----- The nearest stop

  /** The nearest stop at or above a node. */
  function Owner(levels: seq<nat>, stop: seq<bool>, j: nat): (o: Option<nat>)
    requires Levels(levels) && |stop| == |levels| && j < |levels|
    ensures o.Some? ==> o.value <= j && stop[o.value]
  {
    if stop[j] then Some(j)
    else if j == 0 then None
    else Owner(levels, stop, Parent(levels, j))
  }

  /** The nodes that belong to `i`, in heading order. */
  function Owned(levels: seq<nat>, stop: seq<bool>, i: nat, n: nat): seq<nat>
    requires Levels(levels) && |stop| == |levels| && n <= |levels|
  {
    if n == 0 then []
    else Owned(levels, stop, i, n - 1) + (if Owner(levels, stop, n - 1) == Some(i) then [n - 1] else [])
  }

  lemma {:induction false} ReachesIsOwner(levels: seq<nat>, stop: seq<bool>, i: nat, j: nat)
    requires Levels(levels) && |stop| == |levels| && i < |levels| && j < |levels| && stop[i]
    ensures Reaches(levels, stop, j, i) <==> Owner(levels, stop, j) == Some(i)
    decreases j
  {
    if j > i && !stop[j] {
      ReachesIsOwner(levels, stop, i, Parent(levels, j));
    }
  }

  /** From a stop, the walk visits exactly the nodes whose nearest stop it is. */
  lemma {:induction false} WalkIsOwned(levels: seq<nat>, stop: seq<bool>, i: nat, n: nat)
    requires Levels(levels) && |stop| == |levels| && i < n <= |levels| && stop[i]
    ensures Walk(levels, stop, i, n) == Owned(levels, stop, i, n)
  {
    WalkIsScan(levels, stop, i, n);
    ScanIsOwned(levels, stop, i, n);
  }

  lemma {:induction false} ScanIsOwned(levels: seq<nat>, stop: seq<bool>, i: nat, n: nat)
    requires Levels(levels) && |stop| == |levels| && i < |levels| && n <= |levels| && stop[i]
    ensures Scan(levels, stop, i, n) == Owned(levels, stop, i, n)
    decreases n
  {
    if n > 0 {
      ReachesIsOwner(levels, stop, i, n - 1);
      ScanIsOwned(levels, stop, i, n - 1);
    }
  }
}
