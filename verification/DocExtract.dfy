/** All documentation files of a release under one budget: the operations are put in
    canonical order and validated again from scratch
    (scripts/openbao_documentation_v2.py, canonical_operations, extract and validate). */
module DocExtract {
  import opened Text
  import opened Sorting
  import opened DocLines
  import opened DocParser

  // ----- The order of tuples of strings

  predicate ListLess(a: seq<string>, b: seq<string>) {
    if b == [] then false
    else if a == [] then true
    else StringLess(a[0], b[0]) || (a[0] == b[0] && ListLess(a[1..], b[1..]))
  }

  lemma {:induction false} ListLessIrreflexive(a: seq<string>)
    ensures !ListLess(a, a)
  {
    if a != [] {
      StringLessIrreflexive(a[0]);
      ListLessIrreflexive(a[1..]);
    }
  }

  lemma {:induction false} ListLessTransitive(a: seq<string>, b: seq<string>, c: seq<string>)
    requires ListLess(a, b) && ListLess(b, c)
    ensures ListLess(a, c)
  {
    hide StringLess;
    if a != [] {
      if StringLess(a[0], b[0]) && StringLess(b[0], c[0]) {
        StringLessTransitive(a[0], b[0], c[0]);
      } else if a[0] == b[0] && b[0] == c[0] {
        ListLessTransitive(a[1..], b[1..], c[1..]);
      }
    }
  }

  lemma {:induction false} ListLessTotal(a: seq<string>, b: seq<string>)
    ensures a == b || ListLess(a, b) || ListLess(b, a)
  {
    hide StringLess;
    if a != [] && b != [] {
      StringLessTotal(a[0], b[0]);
      if a[0] == b[0] {
        ListLessTotal(a[1..], b[1..]);
        assert a == [a[0]] + a[1..] && b == [b[0]] + b[1..];
      }
    }
  }

  lemma {:induction false} ListOrder()
    ensures StrictTotal(ListLess)
  {
    hide ListLess;
    forall a ensures !ListLess(a, a) { ListLessIrreflexive(a); }
    forall a, b, c | ListLess(a, b) && ListLess(b, c) ensures ListLess(a, c) { ListLessTransitive(a, b, c); }
    forall a: seq<string>, b: seq<string> | a != b ensures ListLess(a, b) || ListLess(b, a) { ListLessTotal(a, b); }
  }

  // ----- Canonical order

  function Identity(op: Operation): seq<string> {
    [op.verb, op.path, op.source, op.heading]
  }

  function Identities(ops: seq<Operation>): seq<seq<string>> {
    seq(|ops|, i requires 0 <= i < |ops| => Identity(ops[i]))
  }

  /** Method first, then path, source and heading. */
  lemma {:induction false} IdentityOrder(a: Operation, b: Operation)
    ensures ListLess(Identity(a), Identity(b)) <==>
              (|| StringLess(a.verb, b.verb)
               || (a.verb == b.verb && StringLess(a.path, b.path))
               || (a.verb == b.verb && a.path == b.path && StringLess(a.source, b.source))
               || (a.verb == b.verb && a.path == b.path && a.source == b.source && StringLess(a.heading, b.heading)))
    ensures Identity(a) == Identity(b) <==>
              a.verb == b.verb && a.path == b.path && a.source == b.source && a.heading == b.heading
  {
    hide StringLess;
    var x, y := Identity(a), Identity(b);
    assert x[1..][1..] == x[2..] && x[2..][1..] == x[3..] && x[3..][1..] == [];
    assert y[1..][1..] == y[2..] && y[2..][1..] == y[3..] && y[3..][1..] == [];
    assert x[0] == a.verb && x[1] == a.path && x[2] == a.source && x[3] == a.heading;
    assert y[0] == b.verb && y[1] == b.path && y[2] == b.source && y[3] == b.heading;
    assert ListLess(x[3..], y[3..]) <==> StringLess(a.heading, b.heading);
    assert ListLess(x[2..], y[2..])
      <==> (StringLess(a.source, b.source) || (a.source == b.source && ListLess(x[3..], y[3..])));
    assert ListLess(x[1..], y[1..])
      <==> (StringLess(a.path, b.path) || (a.path == b.path && ListLess(x[2..], y[2..])));
  }

  /** No identity stands for two different operations. */
  ghost predicate Consistent(ops: seq<Operation>) {
    forall i, j :: 0 <= i < |ops| && 0 <= j < |ops| && Identity(ops[i]) == Identity(ops[j]) ==> ops[i] == ops[j]
  }

  /** `canon` is `ops` in identity order, each operation once. */
  ghost predicate Canon(canon: seq<Operation>, ops: seq<Operation>) {
    StrictlySorted(Identities(canon), ListLess) && ToSet(canon) == ToSet(ops)
  }

  /** The canonical form depends on the set of operations only, not on their order. */
  lemma {:induction false} CanonUnique(a: seq<Operation>, b: seq<Operation>, ops: seq<Operation>,
                                       others: seq<Operation>)
    requires Canon(a, ops) && Canon(b, others) && ToSet(ops) == ToSet(others) && Consistent(ops)
    ensures a == b
  {
    hide ListLess, StrictTotal, StrictlySorted;
    ListOrder();
    SameIdentities(a, b);
    SortedUnique(Identities(a), Identities(b), ListLess);
    forall i | 0 <= i < |a| ensures |a| == |b| && a[i] == b[i] {
      assert Identities(a)[i] == Identities(b)[i];
      assert a[i] in ToSet(ops) && b[i] in ToSet(ops);
    }
    assert |a| == |Identities(a)| == |Identities(b)|;
  }

  lemma {:induction false} SameIdentities(a: seq<Operation>, b: seq<Operation>)
    requires ToSet(a) == ToSet(b)
    ensures ToSet(Identities(a)) == ToSet(Identities(b))
  {
    IdentityMembers(a, b);
    IdentityMembers(b, a);
  }

  lemma {:induction false} IdentityMembers(a: seq<Operation>, b: seq<Operation>)
    requires ToSet(a) <= ToSet(b)
    ensures ToSet(Identities(a)) <= ToSet(Identities(b))
  {
    forall x | x in Identities(a) ensures x in Identities(b) {
      var i :| 0 <= i < |a| && Identities(a)[i] == x;
      assert a[i] in ToSet(b);
      var j :| 0 <= j < |b| && b[j] == a[i];
      assert Identities(b)[j] == x;
    }
  }

  /** `unique` holds the operations seen so far under their identities. */
  ghost predicate Holds(unique: map<seq<string>, Operation>, ops: seq<Operation>) {
    && (forall i :: 0 <= i < |ops| ==> Identity(ops[i]) in unique && unique[Identity(ops[i])] == ops[i])
    && (forall id :: id in unique ==> unique[id] in ops && Identity(unique[id]) == id)
  }

  lemma {:induction false} HoldsSnoc(unique: map<seq<string>, Operation>, ops: seq<Operation>, op: Operation)
    requires Holds(unique, ops)
    requires Identity(op) in unique ==> unique[Identity(op)] == op
    ensures Holds(unique[Identity(op) := op], ops + [op])
  {
    hide Identity;
    var more := unique[Identity(op) := op];
    forall id | id in more ensures more[id] in ops + [op] && Identity(more[id]) == id {}
  }

  /** The values of the dictionary in identity order. */
  function InOrder(unique: map<seq<string>, Operation>, ids: seq<seq<string>>): seq<Operation>
    requires forall id :: id in ids ==> id in unique
  {
    seq(|ids|, i requires 0 <= i < |ids| => unique[ids[i]])
  }

  lemma {:induction false} InOrderIsCanon(unique: map<seq<string>, Operation>, ops: seq<Operation>,
                                          ids: seq<seq<string>>)
    requires Holds(unique, ops) && StrictlySorted(ids, ListLess) && ToSet(ids) == ToSet(Identities(ops))
    ensures forall id :: id in ids ==> id in unique
    ensures Canon(InOrder(unique, ids), ops)
  {
    hide ListLess, StrictlySorted, Identity;
    forall id | id in ids ensures id in unique {
      assert id in ToSet(Identities(ops));
      var i :| 0 <= i < |ops| && Identities(ops)[i] == id;
    }
    var canon := InOrder(unique, ids);
    assert Identities(canon) == ids;
    forall op | op in ops ensures op in canon {
      var i :| 0 <= i < |ops| && ops[i] == op;
      assert Identities(ops)[i] in ToSet(ids);
      var j :| 0 <= j < |ids| && ids[j] == Identity(op);
      assert canon[j] == op;
    }
  }

  /** `canonical_operations` */
  method CanonicalOperations(ops: seq<Operation>) returns (r: Option<seq<Operation>>)
    ensures r.Some? <==> Consistent(ops)
    ensures r.Some? ==> Canon(r.value, ops)
  {
    hide ListLess, StrictTotal, StrictlySorted, Identity, Canon, InOrder, SortedSet;
    var unique: map<seq<string>, Operation>, k := map[], 0;
    while k < |ops|
      invariant 0 <= k <= |ops| && Holds(unique, ops[..k])
    {
      var op := ops[k];
      var id := Identity(op);
      if id in unique && unique[id] != op {
        return None;
      }
      HoldsSnoc(unique, ops[..k], op);
      assert ops[..k + 1] == ops[..k] + [op];
      unique, k := unique[id := op], k + 1;
    }
    assert ops[..k] == ops;
    var ids := SortedSet(Identities(ops), ListLess);
    ListOrder();
    SortedSetSorted(Identities(ops), ListLess);
    InOrderIsCanon(unique, ops, ids);
    r := Some(InOrder(unique, ids));
  }

  // ----- Validation from scratch

  lemma {:induction false} CostSnoc(ops: seq<Operation>, k: nat)
    requires k < |ops|
    ensures ops[..k + 1] == ops[..k] + [ops[k]]
    ensures Cost(ops[..k + 1]) == Cost(ops[..k]) + |ops[k].fields|
    ensures Cost(ops[..k + 1]) <= Cost(ops)
  {
    assert ops[..k + 1][..k] == ops[..k];
    assert ops == ops[..k + 1] + ops[k + 1..];
    CostAppend(ops[..k + 1], ops[k + 1..]);
  }

  /** The budget and ordering part of `validate`. */
  method Validate(ops: seq<Operation>) returns (ok: bool)
    ensures ok <==>
      (|ops| <= MAX_OPERATIONS && Cost(ops) <= MAX_TOTAL_FIELDS && StrictlySorted(Identities(ops), ListLess))
  {
    hide Cost, ListLess, StrictlySorted, StrictTotal, SortedSet, Identity;
    var budget := new ExpansionBudget();
    var ids: seq<seq<string>>, k := [], 0;
    assert ops[..0] == [];
    CostNil();
    while k < |ops|
      invariant 0 <= k <= |ops| && ids == Identities(ops)[..k] && fresh(budget) && budget.Valid()
      invariant budget.operations == MAX_OPERATIONS - k
      invariant budget.fields == MAX_TOTAL_FIELDS - Cost(ops[..k])
    {
      CostSnoc(ops, k);
      var ok := budget.Take(1, |ops[k].fields|);
      if !ok {
        return false;
      }
      ids := ids + [Identity(ops[k])];
      k := k + 1;
    }
    assert ops[..k] == ops && Identities(ops)[..k] == Identities(ops);
    ListOrder();
    OwnSort(ids, ListLess);
    ok := ids == SortedSet(ids, ListLess);
  }

  lemma {:induction false} CostNil()
    ensures Cost([]) == 0
  {
  }

  // ----- The whole release

  datatype File = File(path: string, size: nat, lines: seq<Line>)

  ghost predicate FilesOk(files: seq<File>, n: nat)
    requires n <= |files|
  {
    forall k :: 0 <= k < n ==> files[k].size <= MAX_FILE_BYTES && Readable(files[k].lines)
  }

  /** What the first `n` files say, in order. */
  function Said(files: seq<File>, n: nat): seq<Operation>
    requires n <= |files|
  {
    if n == 0 then [] else Said(files, n - 1) + Meaning(files[n - 1].path, files[n - 1].lines)
  }

  lemma {:induction false} SaidGrow(files: seq<File>, k: nat, n: nat)
    requires k <= n <= |files|
    ensures |Said(files, k)| <= |Said(files, n)| && Cost(Said(files, k)) <= Cost(Said(files, n))
    decreases n
  {
    hide Meaning, Cost;
    if k < n {
      SaidGrow(files, k, n - 1);
      CostAppend(Said(files, n - 1), Meaning(files[n - 1].path, files[n - 1].lines));
    }
  }

  lemma {:induction false} CostWithout(b: seq<Operation>, k: nat)
    requires k < |b|
    ensures Cost(b) == Cost(b[..k] + b[k + 1..]) + |b[k].fields|
  {
    CostSnoc(b, k);
    CostAppend(b[..k], b[k + 1..]);
    CostAppend(b[..k + 1], b[k + 1..]);
    assert b == b[..k + 1] + b[k + 1..];
  }

  lemma {:induction false} StillIn(y: Operation, b: seq<Operation>, k: nat)
    requires k < |b| && y in b && y != b[k]
    ensures y in b[..k] + b[k + 1..]
  {
    var rest := b[..k] + b[k + 1..];
    var j :| 0 <= j < |b| && b[j] == y;
    assert j < k ==> rest[j] == y;
    assert j > k ==> rest[j - 1] == y;
  }

  /** A list without repetition costs no more than any list that contains it. */
  lemma {:induction false} CostWithin(a: seq<Operation>, b: seq<Operation>)
    requires Distinct(a) && ToSet(a) <= ToSet(b)
    ensures |a| <= |b| && Cost(a) <= Cost(b)
  {
    if a != [] {
      var last := |a| - 1;
      var x, front := a[last], a[..last];
      assert x in ToSet(b);
      var k :| 0 <= k < |b| && b[k] == x;
      var rest := b[..k] + b[k + 1..];
      forall y | y in front ensures y in rest {
        assert y in ToSet(b);
        StillIn(y, b, k);
      }
      CostWithin(front, rest);
      CostWithout(b, k);
    }
  }

  lemma {:induction false} SortedDistinct(canon: seq<Operation>)
    requires StrictlySorted(Identities(canon), ListLess)
    ensures Distinct(canon)
  {
    ListOrder();
    hide ListLess, Identity;
    forall i, j | 0 <= i < j < |canon| ensures canon[i] != canon[j] {
      assert ListLess(Identities(canon)[i], Identities(canon)[j]);
    }
  }

  /** A canonical form of operations that met the budget meets a fresh one. */
  lemma {:induction false} CanonFits(canon: seq<Operation>, ops: seq<Operation>)
    requires Canon(canon, ops) && |ops| <= MAX_OPERATIONS && Cost(ops) <= MAX_TOTAL_FIELDS
    ensures |canon| <= MAX_OPERATIONS && Cost(canon) <= MAX_TOTAL_FIELDS
  {
    hide ListLess, StrictlySorted, Cost;
    SortedDistinct(canon);
    CostWithin(canon, ops);
  }

  /** `extract`. The check on the number of operations and the final validation never refuse. */
  method Extract(files: seq<File>) returns (r: Option<seq<Operation>>)
    ensures var all := Said(files, |files|);
            && (r.Some? <==> FilesOk(files, |files|) && |all| <= MAX_OPERATIONS
                             && Cost(all) <= MAX_TOTAL_FIELDS && Consistent(all))
            && (r.Some? ==> Canon(r.value, all))
  {
    hide Meaning, Readable, Cost, Canon, Consistent, ListLess, StrictlySorted;
    var budget := new ExpansionBudget();
    var operations: seq<Operation>, k := [], 0;
    CostNil();
    while k < |files|
      invariant 0 <= k <= |files| && fresh(budget) && budget.Valid()
      invariant FilesOk(files, k) && operations == Said(files, k)
      invariant budget.operations == MAX_OPERATIONS - |operations|
      invariant budget.fields == MAX_TOTAL_FIELDS - Cost(operations)
    {
      SaidGrow(files, k + 1, |files|);
      var file := files[k];
      CostAppend(operations, Meaning(file.path, file.lines));
      var more := Parse(file.path, file.size, file.lines, budget);
      if more.None? {
        return None;
      }
      operations := operations + more.value;
      if |operations| > MAX_OPERATIONS {
        assert false;
        return None;
      }
      k := k + 1;
    }
    var canon := CanonicalOperations(operations);
    if canon.None? {
      return None;
    }
    CanonFits(canon.value, operations);
    CanonSorted(canon.value, operations);
    var ok := Validate(canon.value);
    if !ok {
      assert false;
      return None;
    }
    r := canon;
  }

  lemma {:induction false} CanonSorted(canon: seq<Operation>, ops: seq<Operation>)
    requires Canon(canon, ops)
    ensures StrictlySorted(Identities(canon), ListLess)
  {
  }
}
