/** The section-aware parser: which section a field row belongs to, the operations of a
    file, and the expansion budget they are charged to
    (scripts/openbao_documentation_v2.py, ExpansionBudget and parse). */
module DocParser {
  import opened Text
  import opened Outline
  import opened DocLines
  import opened DocTree
  import opened DocFields

  const MAX_TOTAL_FIELDS := 65536
  const MAX_FILE_BYTES := 2 * 1024 * 1024

  class ExpansionBudget {
    var operations: nat
    var fields: nat

    /** A budget only ever shrinks from its default. */
    ghost predicate Valid()
      reads this
    {
      operations <= MAX_OPERATIONS && fields <= MAX_TOTAL_FIELDS
    }

    constructor ()
      ensures Valid() && operations == MAX_OPERATIONS && fields == MAX_TOTAL_FIELDS
    {
      operations, fields := MAX_OPERATIONS, MAX_TOTAL_FIELDS;
    }

    /** A refusal takes nothing. */
    method Take(o: nat, f: nat) returns (ok: bool)
      requires Valid()
      modifies this
      ensures Valid()
      ensures ok <==> o <= old(operations) && f <= old(fields)
      ensures operations == old(operations) - (if ok then o else 0)
      ensures fields == old(fields) - (if ok then f else 0)
    {
      if o > operations || f > fields {
        return false;
      }
      operations, fields := operations - o, fields - f;
      ok := true;
    }
  }

  datatype Operation =
    Operation(verb: string, path: string, style: string, heading: string, source: string, fields: seq<Field>)

  // ----- Whose fields are they

  /** The nearest part at or above part `j`, in the heading tree, that bears endpoints. */
  function Bearer(parts: seq<Part>, j: nat): (o: Option<nat>)
    requires Rooted(parts) && j < |parts|
    ensures o.Some? ==> o.value <= j && Bears(parts)[o.value]
  {
    Owner(LevelsOf(parts), Bears(parts), j)
  }

  function Tag(parts: seq<Part>, i: nat, j: nat): string
    requires j < |parts|
  {
    if j == i then "body" else parts[j].slug
  }

  /** The field rows whose nearest bearer is `i`, in document order, among the first `n` parts. */
  function FieldsOf(parts: seq<Part>, i: nat, n: nat): seq<Field>
    requires Rooted(parts) && n <= |parts|
  {
    if n == 0 then []
    else
      FieldsOf(parts, i, n - 1)
        + (if Bearer(parts, n - 1) == Some(i) then FieldRows(parts[n - 1].lines, Tag(parts, i, n - 1)) else [])
  }

  ghost predicate SoundFor(parts: seq<Part>, i: nat, n: nat)
    requires Rooted(parts) && n <= |parts|
  {
    forall j :: 0 <= j < n && Bearer(parts, j) == Some(i) ==>
      FieldsSound(parts[j].lines) && (j == i || ValidText(parts[j].slug, MAX_LABEL))
  }

  ghost predicate FieldsOk(parts: seq<Part>, i: nat)
    requires Rooted(parts)
  {
    SoundFor(parts, i, |parts|) && |FieldsOf(parts, i, |parts|)| <= MAX_FIELDS_PER_SECTION
  }

  lemma {:induction false} OwnedNone(parts: seq<Part>, i: nat, n: nat)
    requires Rooted(parts) && n <= i < |parts|
    ensures Owned(LevelsOf(parts), Bears(parts), i, n) == []
  {
    if n > 0 {
      OwnedNone(parts, i, n - 1);
    }
  }

  lemma {:induction false} FieldsNone(parts: seq<Part>, i: nat, n: nat)
    requires Rooted(parts) && n <= i < |parts|
    ensures FieldsOf(parts, i, n) == [] && SoundFor(parts, i, n)
  {
    hide FieldsOf, SoundFor, Bearer, Bears, Rooted, FieldRows, FieldsSound, ValidText;
    FieldsZero(parts, i);
    if n > 0 {
      FieldsNone(parts, i, n - 1);
      FieldsSnoc(parts, i, n);
      SoundSnoc(parts, i, n);
    }
  }

  lemma {:induction false} FieldsZero(parts: seq<Part>, i: nat)
    requires Rooted(parts)
    ensures FieldsOf(parts, i, 0) == [] && SoundFor(parts, i, 0)
  {
  }

  lemma {:induction false} SoundSnoc(parts: seq<Part>, i: nat, n: nat)
    requires Rooted(parts) && 0 < n <= |parts|
    ensures SoundFor(parts, i, n)
        <==> (SoundFor(parts, i, n - 1)
              && (Bearer(parts, n - 1) == Some(i) ==>
                    FieldsSound(parts[n - 1].lines) && (n - 1 == i || ValidText(parts[n - 1].slug, MAX_LABEL))))
  {
    hide FieldsSound, ValidText, Bearer;
  }

  /** The rows of `i`, then those of the parts in `below`, are what belongs to `i`. */
  ghost predicate Agree(parts: seq<Part>, i: nat, n: nat, below: seq<nat>)
    requires Rooted(parts) && i < n <= |parts|
  {
    && FieldsOf(parts, i, n) == FieldRows(parts[i].lines, "body") + Gather(parts, below)
    && (SoundFor(parts, i, n) <==> FieldsSound(parts[i].lines) && Sound(parts, below))
  }

  lemma {:induction false} FieldsSnoc(parts: seq<Part>, i: nat, n: nat)
    requires Rooted(parts) && 0 < n <= |parts|
    ensures FieldsOf(parts, i, n) == FieldsOf(parts, i, n - 1)
              + (if Bearer(parts, n - 1) == Some(i) then FieldRows(parts[n - 1].lines, Tag(parts, i, n - 1)) else [])
  {
    hide Bearer, FieldRows, Tag;
  }

  lemma {:induction false} RowsStep(parts: seq<Part>, i: nat, j: nat, below: seq<nat>, before: seq<Field>)
    requires i < j < |parts|
    requires before == FieldRows(parts[i].lines, "body") + Gather(parts, below)
    ensures before + FieldRows(parts[j].lines, parts[j].slug)
         == FieldRows(parts[i].lines, "body") + Gather(parts, below + [j])
  {
    GatherAppend(parts, below, [j]);
    GatherOne(parts, j);
    hide Gather, FieldRows;
    AppendAssoc(FieldRows(parts[i].lines, "body"), Gather(parts, below), FieldRows(parts[j].lines, parts[j].slug));
  }

  lemma {:induction false} SoundStep(parts: seq<Part>, below: seq<nat>, j: nat)
    requires j < |parts|
    ensures Sound(parts, below + [j])
        <==> (Sound(parts, below) && FieldsSound(parts[j].lines) && ValidText(parts[j].slug, MAX_LABEL))
  {
    hide FieldsSound, ValidText;
    assert forall k :: k in below + [j] <==> k in below || k == j;
  }

  lemma {:induction false} AgreeTake(parts: seq<Part>, i: nat, n: nat, below: seq<nat>)
    requires Rooted(parts) && i + 1 < n <= |parts| && Agree(parts, i, n - 1, below)
    requires Bearer(parts, n - 1) == Some(i)
    ensures Agree(parts, i, n, below + [n - 1])
  {
    hide FieldsOf, Gather, Sound, SoundFor, FieldsSound, ValidText, Bearer, Bears, FieldRows, Rooted;
    SoundSnoc(parts, i, n);
    FieldsSnoc(parts, i, n);
    SoundStep(parts, below, n - 1);
    RowsStep(parts, i, n - 1, below, FieldsOf(parts, i, n - 1));
  }

  lemma {:induction false} AgreeSkip(parts: seq<Part>, i: nat, n: nat, below: seq<nat>)
    requires Rooted(parts) && i + 1 < n <= |parts| && Agree(parts, i, n - 1, below)
    requires Bearer(parts, n - 1) != Some(i)
    ensures Agree(parts, i, n, below)
  {
    hide FieldsOf, Gather, Sound, SoundFor, FieldsSound, ValidText, Bearer, Bears, FieldRows, Rooted;
    SoundSnoc(parts, i, n);
    FieldsSnoc(parts, i, n);
    assert FieldsOf(parts, i, n - 1) + [] == FieldsOf(parts, i, n - 1);
  }

  lemma {:induction false} AgreeStart(parts: seq<Part>, i: nat)
    requires Rooted(parts) && i < |parts| && Bears(parts)[i]
    ensures Agree(parts, i, i + 1, [])
  {
    FieldsNone(parts, i, i);
    SoundSnoc(parts, i, i + 1);
    Nothing(parts);
    hide SoundFor, Sound, FieldsSound, ValidText, Gather, FieldRows;
    assert Bearer(parts, i) == Some(i);
    assert FieldRows(parts[i].lines, "body") + [] == FieldRows(parts[i].lines, "body");
  }

  lemma {:induction false} OwnedSnoc(parts: seq<Part>, i: nat, n: nat)
    requires Rooted(parts) && 0 < n <= |parts|
    ensures Owned(LevelsOf(parts), Bears(parts), i, n)
         == Owned(LevelsOf(parts), Bears(parts), i, n - 1) + (if Bearer(parts, n - 1) == Some(i) then [n - 1] else [])
    ensures i == n - 1 && Bears(parts)[i] ==> Bearer(parts, n - 1) == Some(i)
  {
  }

  /** Document order over the owned parts and the order of the visit give the same rows. */
  lemma {:induction false} OwnedRows(parts: seq<Part>, i: nat, n: nat) returns (below: seq<nat>)
    requires Rooted(parts) && i < n <= |parts| && Bears(parts)[i]
    ensures Owned(LevelsOf(parts), Bears(parts), i, n) == [i] + below && Agree(parts, i, n, below)
    decreases n
  {
    hide Agree, Owned, Bearer, Bears, LevelsOf, Rooted;
    OwnedSnoc(parts, i, n);
    if n == i + 1 {
      OwnedNone(parts, i, i);
      AgreeStart(parts, i);
      below := [];
    } else {
      var before := OwnedRows(parts, i, n - 1);
      if Bearer(parts, n - 1) == Some(i) {
        AgreeTake(parts, i, n, before);
        below := before + [n - 1];
        AppendAssoc([i], before, [n - 1]);
      } else {
        AgreeSkip(parts, i, n, before);
        below := before;
      }
    }
  }

  /** What the recursion collects for a bearer is exactly what belongs to it. */
  lemma {:induction false} CollectedIsOwned(parts: seq<Part>, i: nat)
    requires Rooted(parts) && i < |parts| && Bears(parts)[i]
    ensures Collectible(parts, i) <==> FieldsOk(parts, i)
    ensures Collected(parts, i, "body") == FieldsOf(parts, i, |parts|)
  {
    var below := Below(parts, i, |parts|);
    WalkIsOwned(LevelsOf(parts), Bears(parts), i, |parts|);
    var rest := OwnedRows(parts, i, |parts|);
    hide Owned;
    assert ([i] + below)[1..] == below && ([i] + rest)[1..] == rest;
    FieldRowsCount(parts[i].lines, "body", "");
    hide FieldsOf, Gather, SoundFor, Sound, FieldsSound, Below;
  }

  // ----- Every row below a bearer belongs to exactly one

  function RowCount(parts: seq<Part>, j: nat): nat
    requires j < |parts|
  {
    |FieldRows(parts[j].lines, "")|
  }

  /** The rows in the first `n` parts that have one of the first `m` parts as nearest bearer. */
  function BorneRows(parts: seq<Part>, m: nat, n: nat): nat
    requires Rooted(parts) && n <= |parts|
  {
    if n == 0 then 0
    else
      var o := Bearer(parts, n - 1);
      BorneRows(parts, m, n - 1) + (if o.Some? && o.value < m then RowCount(parts, n - 1) else 0)
  }

  /** The rows given to the first `m` bearers. */
  function GivenRows(parts: seq<Part>, m: nat, n: nat): nat
    requires Rooted(parts) && m <= |parts| && n <= |parts|
  {
    if m == 0 then 0 else GivenRows(parts, m - 1, n) + |FieldsOf(parts, m - 1, n)|
  }

  lemma {:induction false} CountIs(parts: seq<Part>, j: nat)
    requires j < |parts|
    ensures RowCount(parts, j) == |FieldRows(parts[j].lines, "")|
  {
  }

  lemma {:induction false} BorneSnoc(parts: seq<Part>, m: nat, n: nat)
    requires Rooted(parts) && 0 < n <= |parts|
    ensures var o := Bearer(parts, n - 1);
            BorneRows(parts, m, n)
              == BorneRows(parts, m, n - 1) + (if o.Some? && o.value < m then RowCount(parts, n - 1) else 0)
  {
    hide Bearer, RowCount;
  }

  lemma {:induction false} BorneMore(parts: seq<Part>, m: nat, n: nat)
    requires Rooted(parts) && n <= |parts| && 0 < m <= |parts|
    ensures BorneRows(parts, m, n) == BorneRows(parts, m - 1, n) + |FieldsOf(parts, m - 1, n)|
  {
    hide FieldsOf, FieldRows, Bearer, Tag, Rooted, Bears, BorneRows, RowCount;
    BorneZero(parts, m);
    BorneZero(parts, m - 1);
    FieldsZero(parts, m - 1);
    if n > 0 {
      BorneMore(parts, m, n - 1);
      FieldsSnoc(parts, m - 1, n);
      FieldRowsCount(parts[n - 1].lines, Tag(parts, m - 1, n - 1), "");
      BorneSnoc(parts, m, n);
      BorneSnoc(parts, m - 1, n);
      CountIs(parts, n - 1);
    }
  }

  lemma {:induction false} BorneZero(parts: seq<Part>, m: nat)
    requires Rooted(parts)
    ensures BorneRows(parts, m, 0) == 0
  {
  }

  lemma {:induction false} BorneNone(parts: seq<Part>, n: nat)
    requires Rooted(parts) && n <= |parts|
    ensures BorneRows(parts, 0, n) == 0
  {
    hide Bearer, RowCount, Rooted;
    if n > 0 {
      BorneNone(parts, n - 1);
    }
  }

  /** No row below a bearer is lost or given twice: the counts add up. */
  lemma {:induction false} EveryRowOnce(parts: seq<Part>, m: nat, n: nat)
    requires Rooted(parts) && m <= |parts| && n <= |parts|
    ensures GivenRows(parts, m, n) == BorneRows(parts, m, n)
    decreases m
  {
    hide BorneRows, FieldsOf, Rooted;
    if m == 0 {
      BorneNone(parts, n);
    } else {
      EveryRowOnce(parts, m - 1, n);
      BorneMore(parts, m, n);
    }
  }

  // ----- The operations of a file

  function SectionOps(source: string, heading: string, eps: seq<Endpoint>, fields: seq<Field>): seq<Operation> {
    seq(|eps|, t requires 0 <= t < |eps| =>
          Operation(eps[t].verb, eps[t].path, eps[t].style, heading, source, fields))
  }

  /** The operations of the first `n` parts: each bearer's endpoints, with its fields. */
  function Ops(source: string, parts: seq<Part>, n: nat): seq<Operation>
    requires Rooted(parts) && n <= |parts|
  {
    if n == 0 then []
    else
      Ops(source, parts, n - 1)
        + SectionOps(source, parts[n - 1].title, TableRows(parts[n - 1].lines), FieldsOf(parts, n - 1, |parts|))
  }

  function Cost(ops: seq<Operation>): nat {
    if ops == [] then 0 else Cost(ops[..|ops| - 1]) + |ops[|ops| - 1].fields|
  }

  lemma {:induction false} CostAppend(a: seq<Operation>, b: seq<Operation>)
    ensures Cost(a + b) == Cost(a) + Cost(b)
  {
    if b == [] {
      assert a + b == a;
    } else {
      CostAppend(a, b[..|b| - 1]);
      DropLast(a, b);
    }
  }

  lemma {:induction false} SectionCost(source: string, heading: string, eps: seq<Endpoint>, fields: seq<Field>)
    ensures |SectionOps(source, heading, eps, fields)| == |eps|
    ensures Cost(SectionOps(source, heading, eps, fields)) == |fields| * |eps|
  {
    if eps != [] {
      var front := eps[..|eps| - 1];
      var all := SectionOps(source, heading, eps, fields);
      SectionCost(source, heading, front, fields);
      assert all[..|eps| - 1] == SectionOps(source, heading, front, fields);
    }
  }

  ghost predicate TablesOk(parts: seq<Part>) {
    forall k :: 0 <= k < |parts| ==> Table(parts[k].lines).Some?
  }

  ghost predicate AllFieldsOk(parts: seq<Part>, n: nat)
    requires Rooted(parts) && n <= |parts|
  {
    forall k :: 0 <= k < n && Bears(parts)[k] ==> FieldsOk(parts, k)
  }

  /** Every limit on the text itself, apart from its size and the budget. */
  ghost predicate Readable(lines: seq<Line>) {
    var parts := Parts(Strip(lines));
    Buildable(lines) && TablesOk(parts) && AllFieldsOk(parts, |parts|)
  }

  /** What a readable text says. */
  function Meaning(source: string, lines: seq<Line>): seq<Operation> {
    var parts := Parts(Strip(lines));
    Ops(source, parts, |parts|)
  }

  /** Fenced content is inert: without its fences a readable text says the same. */
  lemma {:induction false} FencesInert(source: string, lines: seq<Line>)
    ensures Readable(lines) <==> FenceAfter(lines).None? && Readable(Strip(lines))
    ensures Meaning(source, Strip(lines)) == Meaning(source, lines)
  {
    StripTwice(lines);
  }

  // ----- The loops of parse

  /** `section.endpoints = endpoints(section.lines)`, for every section. */
  method Fill(sections: seq<Section>, ghost parts: seq<Part>) returns (ok: bool)
    requires Tree(sections, parts)
    modifies ToSet(sections)
    ensures ok <==> TablesOk(parts)
    ensures ok ==> Filled(sections, parts)
  {
    hide Kids, Levels, LevelsOf, Distinct, TablesSound, TableRows;
    var k := 0;
    while k < |sections|
      invariant 0 <= k <= |sections| && Tree(sections, parts)
      invariant forall j :: 0 <= j < k ==> Table(parts[j].lines) == Some(sections[j].endpoints)
    {
      var found := Endpoints(sections[k].lines);
      if found.None? {
        return false;
      }
      SetEndpoints(sections[k], found.value, k, sections, parts);
      k := k + 1;
    }
    ok := true;
  }

  method SetEndpoints(section: Section, found: seq<Endpoint>, ghost k: nat, ghost sections: seq<Section>,
                      ghost parts: seq<Part>)
    requires Tree(sections, parts) && k < |sections| && sections[k] == section
    modifies section`endpoints
    ensures Tree(sections, parts) && section.endpoints == found
    ensures forall j :: 0 <= j < |sections| && j != k ==> sections[j].endpoints == old(sections[j].endpoints)
  {
    hide Kids, Levels, LevelsOf;
    section.endpoints := found;
  }

  lemma {:induction false} OpsGrow(source: string, parts: seq<Part>, k: nat, n: nat)
    requires Rooted(parts) && k <= n <= |parts|
    ensures |Ops(source, parts, k)| <= |Ops(source, parts, n)|
    ensures Cost(Ops(source, parts, k)) <= Cost(Ops(source, parts, n))
    decreases n
  {
    hide Rooted, TableRows, FieldsOf, SectionOps, Cost;
    if k < n {
      OpsGrow(source, parts, k, n - 1);
      var part := parts[n - 1];
      CostAppend(Ops(source, parts, n - 1),
                 SectionOps(source, part.title, TableRows(part.lines), FieldsOf(parts, n - 1, |parts|)));
    }
  }

  /** The operations of one section, paid from the budget. */
  method Charge(source: string, section: Section, budget: ExpansionBudget, ghost k: nat,
                ghost sections: seq<Section>, ghost parts: seq<Part>)
    returns (r: Option<seq<Operation>>)
    requires Filled(sections, parts) && Rooted(parts) && k < |sections| && sections[k] == section
    requires section.endpoints != [] && budget.Valid()
    modifies budget
    ensures Filled(sections, parts) && budget.Valid()
    ensures var all := SectionOps(source, parts[k].title, TableRows(parts[k].lines), FieldsOf(parts, k, |parts|));
            && (r.Some? <==> FieldsOk(parts, k) && |all| <= old(budget.operations) && Cost(all) <= old(budget.fields))
            && (r.Some? ==> r.value == all && budget.operations == old(budget.operations) - |all|
                            && budget.fields == old(budget.fields) - Cost(all))
  {
    hide FieldsOf, FieldsOk, SectionOps, Cost, Rooted, TableRows, Kids, Levels, Collectible, Collected;
    CollectedIsOwned(parts, k);
    var fields := FieldsFor(section, "body", k, sections, parts);
    if fields.None? {
      return None;
    }
    SectionCost(source, section.title, section.endpoints, fields.value);
    var paid := budget.Take(|section.endpoints|, |fields.value| * |section.endpoints|);
    r := if paid then Some(SectionOps(source, section.title, section.endpoints, fields.value)) else None;
  }

  /** The last loop of `parse`. Its own check on the number of operations never fires. */
  method Produce(source: string, sections: seq<Section>, budget: ExpansionBudget, ghost parts: seq<Part>)
    returns (r: Option<seq<Operation>>)
    requires Filled(sections, parts) && Rooted(parts) && budget.Valid()
    modifies budget
    ensures budget.Valid()
    ensures var all := Ops(source, parts, |parts|);
            && (r.Some? <==> AllFieldsOk(parts, |parts|)
                             && |all| <= old(budget.operations) && Cost(all) <= old(budget.fields))
            && (r.Some? ==> r.value == all && budget.operations == old(budget.operations) - |all|
                            && budget.fields == old(budget.fields) - Cost(all))
  {
    hide FieldsOf, FieldsOk, SectionOps, Cost, Rooted, TableRows, Kids, Levels, LevelsOf, Ops, AllFieldsOk;
    var operations: seq<Operation>, k := [], 0;
    ProduceNone(source, parts);
    while k < |sections|
      invariant 0 <= k <= |sections| && Filled(sections, parts) && budget.Valid()
      invariant operations == Ops(source, parts, k) && AllFieldsOk(parts, k)
      invariant budget.operations == old(budget.operations) - |operations|
      invariant budget.fields == old(budget.fields) - Cost(operations)
    {
      ProduceStep(source, parts, k);
      var section := sections[k];
      if section.endpoints != [] {
        var added := Charge(source, section, budget, k, sections, parts);
        if added.None? {
          return None;
        }
        operations := operations + added.value;
        if |operations| > MAX_OPERATIONS {
          assert false;
          return None;
        }
      }
      k := k + 1;
    }
    r := Some(operations);
  }

  lemma {:induction false} ProduceNone(source: string, parts: seq<Part>)
    requires Rooted(parts)
    ensures Ops(source, parts, 0) == [] && Cost([]) == 0 && AllFieldsOk(parts, 0)
  {
  }

  /** What part `k` adds, and that a limit broken at part `k` is broken for the whole text. */
  lemma {:induction false} ProduceStep(source: string, parts: seq<Part>, k: nat)
    requires Rooted(parts) && k < |parts|
    ensures var more := SectionOps(source, parts[k].title, TableRows(parts[k].lines), FieldsOf(parts, k, |parts|));
            && Ops(source, parts, k + 1) == Ops(source, parts, k) + more
            && Cost(Ops(source, parts, k + 1)) == Cost(Ops(source, parts, k)) + Cost(more)
            && (!Bears(parts)[k] ==> Ops(source, parts, k + 1) == Ops(source, parts, k))
    ensures |Ops(source, parts, k + 1)| <= |Ops(source, parts, |parts|)|
    ensures Cost(Ops(source, parts, k + 1)) <= Cost(Ops(source, parts, |parts|))
    ensures AllFieldsOk(parts, k + 1) <==> (AllFieldsOk(parts, k) && (Bears(parts)[k] ==> FieldsOk(parts, k)))
    ensures AllFieldsOk(parts, |parts|) ==> AllFieldsOk(parts, k + 1)
  {
    hide FieldsOf, FieldsOk, SectionOps, Cost, Rooted, TableRows;
    var before := Ops(source, parts, k);
    var more := SectionOps(source, parts[k].title, TableRows(parts[k].lines), FieldsOf(parts, k, |parts|));
    OpsGrow(source, parts, k + 1, |parts|);
    CostAppend(before, more);
    SectionCost(source, parts[k].title, TableRows(parts[k].lines), FieldsOf(parts, k, |parts|));
    assert before + [] == before;
  }

  /** `parse`. It accepts exactly the readable texts the budget can pay for, says what they
      mean, and takes from the budget exactly what it produced. */
  method Parse(source: string, size: nat, lines: seq<Line>, budget: ExpansionBudget)
    returns (r: Option<seq<Operation>>)
    requires budget.Valid()
    modifies budget
    ensures budget.Valid()
    ensures var all := Meaning(source, lines);
            && (r.Some? <==> size <= MAX_FILE_BYTES && Readable(lines)
                             && |all| <= old(budget.operations) && Cost(all) <= old(budget.fields))
            && (r.Some? ==> r.value == all && budget.operations == old(budget.operations) - |all|
                            && budget.fields == old(budget.fields) - Cost(all))
  {
    hide Buildable, TablesOk, AllFieldsOk, Ops, Cost, Tree, Filled, Strip, Parts;
    if size > MAX_FILE_BYTES {
      return None;
    }
    var sections := BuildSections(lines);
    if sections.None? {
      return None;
    }
    ghost var parts := Parts(Strip(lines));
    var filled := Fill(sections.value, parts);
    if !filled {
      return None;
    }
    r := Produce(source, sections.value, budget, parts);
  }
}
