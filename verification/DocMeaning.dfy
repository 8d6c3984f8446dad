/** What a documentation file says, by the positions of its lines: which lines a fence hides,
    where a table is open, which lines belong to which part, and what each table row and
    field row contributes (scripts/openbao_documentation_v2.py, endpoints and parse). */
module DocMeaning {
  import opened Text
  import opened DocLines
  import opened DocFields
  import opened DocParser
  import opened DocTree
  import opened Outline

  // ----- Fences

  /** A fence line that closes what `open` opened. */
  predicate Closes(open: Line, line: Line) {
    open.Fence? && line.Fence? && line.mark == open.mark && line.length >= open.length && line.bare
  }

  /** Each block runs from a fence line to the first line that closes it. */
  predicate Block(lines: seq<Line>, o: nat, c: nat) {
    && o < c < |lines| && lines[o].Fence? && Closes(lines[o], lines[c])
    && forall j :: o < j < c ==> !Closes(lines[o], lines[j])
  }

  /** Blocks in order, perhaps one left open at the end, and no fence line anywhere else. */
  ghost predicate Layout(lines: seq<Line>, blocks: seq<(nat, nat)>, tail: Option<nat>) {
    && (forall i :: 0 <= i < |blocks| ==> Block(lines, blocks[i].0, blocks[i].1))
    && (forall i, j :: 0 <= i < j < |blocks| ==> blocks[i].1 < blocks[j].0)
    && (tail.Some? ==>
          && tail.value < |lines| && lines[tail.value].Fence?
          && (forall i :: 0 <= i < |blocks| ==> blocks[i].1 < tail.value)
          && (forall j :: tail.value < j < |lines| ==> !Closes(lines[tail.value], lines[j])))
    && (forall k :: 0 <= k < |lines| && lines[k].Fence? ==> Hidden(blocks, tail, k))
  }

  predicate Hidden(blocks: seq<(nat, nat)>, tail: Option<nat>, k: nat) {
    (exists i :: 0 <= i < |blocks| && blocks[i].0 <= k <= blocks[i].1) || (tail.Some? && tail.value <= k)
  }

  /** The lines that no fence hides. */
  function Shown(lines: seq<Line>, blocks: seq<(nat, nat)>, tail: Option<nat>): seq<seq<Line>> {
    seq(|lines|, k requires 0 <= k < |lines| => if Hidden(blocks, tail, k) then [] else [lines[k]])
  }

  ghost predicate FencesAre(lines: seq<Line>, blocks: seq<(nat, nat)>, tail: Option<nat>) {
    && Layout(lines, blocks, tail)
    && FenceAfter(lines)
         == (if tail.Some? then Some(Opened(lines[tail.value].mark, lines[tail.value].length)) else None)
    && Strip(lines) == Flatten(Shown(lines, blocks, tail))
  }

  /** Every text is cut into blocks in this way, and what is left after removing the fences
      is what no block hides, line by line. */
  lemma {:induction false} FencesMean(lines: seq<Line>) returns (blocks: seq<(nat, nat)>, tail: Option<nat>)
    ensures FencesAre(lines, blocks, tail) && (tail.Some? ==> tail.value < |lines|)
  {
    hide FencesAre;
    blocks, tail := [], None;
    if lines == [] {
      NoFences();
    } else {
      var n := |lines| - 1;
      blocks, tail := FencesMean(lines[..n]);
      if tail.Some? {
        if Closes(lines[tail.value], lines[n]) {
          BlockEnds(lines, blocks, tail.value);
          blocks, tail := blocks + [(tail.value, n)], None;
        } else {
          BlockGoesOn(lines, blocks, tail.value);
        }
      } else if lines[n].Fence? {
        BlockStarts(lines, blocks);
        tail := Some(n);
      } else {
        PlainLine(lines, blocks);
      }
    }
  }

  lemma {:induction false} NoFences()
    ensures FencesAre([], [], None)
  {
  }

  /** One more line: what the model's recursion does with it. */
  lemma {:induction false} OneMore(lines: seq<Line>)
    requires lines != []
    ensures var n := |lines| - 1;
            && FenceAfter(lines) == FenceStep(FenceAfter(lines[..n]), lines[n])
            && Strip(lines) == Strip(lines[..n])
                               + (if FenceAfter(lines[..n]).None? && !lines[n].Fence? then [lines[n]] else [])
  {
    hide FenceStep;
  }

  lemma {:induction false} ShownSnoc(lines: seq<Line>, blocks: seq<(nat, nat)>, tail: Option<nat>,
                                     before: seq<(nat, nat)>, open: Option<nat>)
    requires lines != []
    requires forall k :: 0 <= k < |lines| - 1 ==> Hidden(blocks, tail, k) == Hidden(before, open, k)
    ensures var n := |lines| - 1;
            Flatten(Shown(lines, blocks, tail))
              == Flatten(Shown(lines[..n], before, open)) + (if Hidden(blocks, tail, n) then [] else [lines[n]])
  {
    hide Hidden;
    var n := |lines| - 1;
    var last := if Hidden(blocks, tail, n) then [] else [lines[n]];
    FlattenSnoc(Shown(lines[..n], before, open), last);
    assert Shown(lines, blocks, tail) == Shown(lines[..n], before, open) + [last];
  }

  lemma {:induction false} BlockLonger(lines: seq<Line>, n: nat, o: nat, c: nat)
    requires n <= |lines| && Block(lines[..n], o, c)
    ensures Block(lines, o, c) && c < n
  {
    hide Closes;
    assert forall j :: 0 <= j < n ==> lines[..n][j] == lines[j];
  }

  lemma {:induction false} BlocksKept(lines: seq<Line>, blocks: seq<(nat, nat)>, tail: Option<nat>)
    requires lines != [] && Layout(lines[..|lines| - 1], blocks, tail)
    ensures forall i :: 0 <= i < |blocks| ==> Block(lines, blocks[i].0, blocks[i].1) && blocks[i].1 < |lines| - 1
  {
    hide Block, Hidden, Closes;
    forall i | 0 <= i < |blocks| ensures Block(lines, blocks[i].0, blocks[i].1) && blocks[i].1 < |lines| - 1 {
      BlockLonger(lines, |lines| - 1, blocks[i].0, blocks[i].1);
    }
  }

  lemma {:induction false} BlockEnds(lines: seq<Line>, blocks: seq<(nat, nat)>, o: nat)
    requires lines != [] && FencesAre(lines[..|lines| - 1], blocks, Some(o)) && Closes(lines[o], lines[|lines| - 1])
    ensures FencesAre(lines, blocks + [(o, |lines| - 1)], None)
  {
    var n := |lines| - 1;
    var longer := blocks + [(o, n)];
    BlocksKept(lines, blocks, Some(o));
    OneMore(lines);
    assert Block(lines, o, n);
    forall k | 0 <= k < n ensures Hidden(longer, None, k) == Hidden(blocks, Some(o), k) {
      HiddenEnd(blocks, o, n, k);
    }
    assert Hidden(longer, None, n) by { assert longer[|blocks|] == (o, n); }
    ShownSnoc(lines, longer, None, blocks, Some(o));
    hide Hidden, Closes, Strip, Shown, Flatten;
    forall k | 0 <= k < |lines| && lines[k].Fence? ensures Hidden(longer, None, k) {
      assert k < n ==> lines[..n][k] == lines[k];
    }
  }

  lemma {:induction false} HiddenEnd(blocks: seq<(nat, nat)>, o: nat, n: nat, k: nat)
    requires k < n
    ensures Hidden(blocks + [(o, n)], None, k) == Hidden(blocks, Some(o), k)
  {
    var longer := blocks + [(o, n)];
    assert longer[|blocks|] == (o, n);
    if i :| 0 <= i < |blocks| && blocks[i].0 <= k <= blocks[i].1 {
      assert longer[i] == blocks[i];
    }
  }

  lemma {:induction false} BlockGoesOn(lines: seq<Line>, blocks: seq<(nat, nat)>, o: nat)
    requires lines != [] && FencesAre(lines[..|lines| - 1], blocks, Some(o)) && !Closes(lines[o], lines[|lines| - 1])
    ensures FencesAre(lines, blocks, Some(o))
  {
    var n := |lines| - 1;
    BlocksKept(lines, blocks, Some(o));
    OneMore(lines);
    ShownSnoc(lines, blocks, Some(o), blocks, Some(o));
    assert Hidden(blocks, Some(o), n);
    hide Strip, Shown, Flatten, Hidden;
    forall k | 0 <= k < |lines| && lines[k].Fence? ensures Hidden(blocks, Some(o), k) {
      assert k < n ==> lines[..n][k] == lines[k];
    }
  }

  lemma {:induction false} BlockStarts(lines: seq<Line>, blocks: seq<(nat, nat)>)
    requires lines != [] && FencesAre(lines[..|lines| - 1], blocks, None) && lines[|lines| - 1].Fence?
    ensures FencesAre(lines, blocks, Some(|lines| - 1))
  {
    var n := |lines| - 1;
    BlocksKept(lines, blocks, None);
    OneMore(lines);
    ShownSnoc(lines, blocks, Some(n), blocks, None);
    assert Hidden(blocks, Some(n), n);
    forall k | 0 <= k < n ensures Hidden(blocks, Some(n), k) == Hidden(blocks, None, k) {}
    hide Strip, Shown, Flatten, Hidden;
    forall k | 0 <= k < |lines| && lines[k].Fence? ensures Hidden(blocks, Some(n), k) {
      assert k < n ==> lines[..n][k] == lines[k];
    }
  }

  lemma {:induction false} PlainLine(lines: seq<Line>, blocks: seq<(nat, nat)>)
    requires lines != [] && FencesAre(lines[..|lines| - 1], blocks, None) && !lines[|lines| - 1].Fence?
    ensures FencesAre(lines, blocks, None)
  {
    var n := |lines| - 1;
    BlocksKept(lines, blocks, None);
    OneMore(lines);
    ShownSnoc(lines, blocks, None, blocks, None);
    assert !Hidden(blocks, None, n);
    hide Strip, Shown, Flatten, Hidden;
    forall k | 0 <= k < |lines| && lines[k].Fence? ensures Hidden(blocks, None, k) {
      assert k < n ==> lines[..n][k] == lines[k];
    }
  }

  // ----- Tables

  /** A header above with nothing but bar lines since. */
  ghost predicate InTable(lines: seq<Line>, k: nat)
    requires k <= |lines|
  {
    exists h :: 0 <= h < k && lines[h].TableHeader? && forall j :: h < j < k ==> IsBar(lines[j])
  }

  predicate IsBar(line: Line) {
    match line
    case TableHeader => true
    case TableRule => true
    case TableRow(_, _) => true
    case BadRow => true
    case Fence(_, _, _) => false
    case Heading(_, _, _) => false
    case FieldRow(_, _) => false
    case Plain => false
  }

  /** A line that may stand in a table. */
  ghost predicate SoundRow(line: Line) {
    match line
    case TableRow(verbs, path) =>
      && verbs.Some?
      && (forall i, j :: 0 <= i < j < |verbs.value| ==> verbs.value[i] != verbs.value[j])
      && (forall i :: 0 <= i < |verbs.value| ==>
            verbs.value[i] in ["ACME", "DELETE", "GET", "HEAD", "LIST", "PATCH", "POST", "PUT", "SCAN"])
      && path != "" && Utf8Length(path) <= 4096
      && (forall i :: 0 <= i < |path| ==> path[i] as int >= 0x20 && path[i] as int != 0x7F)
    case BadRow => false
    case _ => true
  }

  /** The endpoints of one row: each method with the row's path, made absolute. */
  function RowEndpoints(line: Line): seq<Endpoint> {
    if line.TableRow? && line.verbs.Some? then
      seq(|line.verbs.value|, i requires 0 <= i < |line.verbs.value| =>
            if line.path != "" && line.path[0] == '/'
            then Endpoint(line.verbs.value[i], line.path, "absolute")
            else Endpoint(line.verbs.value[i], "/" + line.path, "relative-normalized"))
    else []
  }

  ghost function TableChunks(lines: seq<Line>): seq<seq<Endpoint>> {
    seq(|lines|, k requires 0 <= k < |lines| => if InTable(lines, k) then RowEndpoints(lines[k]) else [])
  }

  lemma {:induction false} OpenIsInTable(lines: seq<Line>)
    ensures TableOpen(lines) <==> InTable(lines, |lines|)
  {
    if lines != [] {
      var n := |lines| - 1;
      var front := lines[..n];
      OpenIsInTable(front);
      assert Bar(lines[n]) == IsBar(lines[n]);
      if InTable(front, n) && IsBar(lines[n]) {
        var h :| 0 <= h < n && front[h].TableHeader? && forall j :: h < j < n ==> IsBar(front[j]);
        assert lines[h].TableHeader? && forall j :: h < j < n ==> IsBar(lines[j]) by {
          assert forall j :: 0 <= j < n ==> front[j] == lines[j];
        }
      }
      if InTable(lines, |lines|) && !lines[n].TableHeader? {
        var h :| 0 <= h < |lines| && lines[h].TableHeader? && forall j :: h < j < |lines| ==> IsBar(lines[j]);
        assert front[h].TableHeader? && forall j :: h < j < n ==> IsBar(front[j]);
      }
    }
  }

  lemma {:induction false} InTableFront(lines: seq<Line>, k: nat, n: nat)
    requires k <= n <= |lines|
    ensures InTable(lines[..n], k) == InTable(lines, k)
  {
    assert forall j :: 0 <= j < n ==> lines[..n][j] == lines[j];
    hide IsBar;
  }

  lemma {:induction false} RowEndpointsAre(line: Line)
    ensures RowEndpoints(line) == Expand(line)
  {
  }

  lemma {:induction false} DistinctVerbsAre(verbs: seq<string>)
    ensures DistinctVerbs(verbs) <==> forall i, j :: 0 <= i < j < |verbs| ==> verbs[i] != verbs[j]
  {
    assert (set v | v in verbs) == ToSet(verbs);
    if Distinct(verbs) {
      DistinctSize(verbs);
    } else {
      var i, j :| 0 <= i < j < |verbs| && verbs[i] == verbs[j];
      var rest := verbs[..j] + verbs[j + 1..];
      forall v | v in verbs ensures v in rest {
        var k :| 0 <= k < |verbs| && verbs[k] == v;
        assert k < j ==> rest[k] == v;
        assert k > j ==> rest[k - 1] == v;
        assert k == j ==> rest[i] == v;
      }
      assert ToSet(verbs) == ToSet(rest);
      SetBound(rest);
    }
  }

  lemma {:induction false} SetBound<T>(s: seq<T>)
    ensures |ToSet(s)| <= |s|
  {
    if s != [] {
      var last := |s| - 1;
      SetBound(s[..last]);
      assert s == s[..last] + [s[last]];
      assert ToSet(s) == ToSet(s[..last]) + {s[last]};
    }
  }

  lemma {:induction false} VerbKnown(v: string)
    ensures v in DOCUMENTED_METHODS <==>
              v in ["ACME", "DELETE", "GET", "HEAD", "LIST", "PATCH", "POST", "PUT", "SCAN"]
  {
  }

  lemma {:induction false} SoundRowIs(line: Line)
    ensures SoundRow(line) <==> RowOk(line)
  {
    if line.TableRow? && line.verbs.Some? {
      VerbsKnown(line.verbs.value);
      PathIs(line.path);
    }
    hide DOCUMENTED_METHODS, DistinctVerbs, Utf8Length, ValidText;
  }

  lemma {:induction false} VerbsKnown(verbs: seq<string>)
    ensures DistinctVerbs(verbs) && (forall v :: v in verbs ==> v in DOCUMENTED_METHODS) <==>
              && (forall i, j :: 0 <= i < j < |verbs| ==> verbs[i] != verbs[j])
              && (forall i :: 0 <= i < |verbs| ==>
                    verbs[i] in ["ACME", "DELETE", "GET", "HEAD", "LIST", "PATCH", "POST", "PUT", "SCAN"])
  {
    DistinctVerbsAre(verbs);
    forall v ensures v in DOCUMENTED_METHODS <==>
                     v in ["ACME", "DELETE", "GET", "HEAD", "LIST", "PATCH", "POST", "PUT", "SCAN"]
    {
      VerbKnown(v);
    }
    hide DOCUMENTED_METHODS, DistinctVerbs;
  }

  lemma {:induction false} PathIs(path: string)
    ensures ValidText(path, MAX_PATH) <==>
              && path != "" && Utf8Length(path) <= 4096
              && (forall i :: 0 <= i < |path| ==> path[i] as int >= 0x20 && path[i] as int != 0x7F)
  {
    hide Utf8Length;
  }

  lemma {:induction false} ChunksSnoc(lines: seq<Line>)
    requires lines != []
    ensures var n := |lines| - 1;
            Flatten(TableChunks(lines))
              == Flatten(TableChunks(lines[..n])) + (if InTable(lines, n) then RowEndpoints(lines[n]) else [])
  {
    hide InTable, RowEndpoints;
    var n := |lines| - 1;
    var front := lines[..n];
    forall k | 0 <= k <= n ensures InTable(front, k) == InTable(lines, k) {
      InTableFront(lines, k, n);
    }
    var last := if InTable(lines, n) then RowEndpoints(lines[n]) else [];
    FlattenSnoc(TableChunks(front), last);
    assert TableChunks(lines) == TableChunks(front) + [last];
  }

  lemma {:induction false} TablesUnfold(lines: seq<Line>)
    ensures lines == [] ==> TableRows(lines) == [] && TablesSound(lines) && Flatten(TableChunks(lines)) == []
    ensures lines != [] ==>
              var n := |lines| - 1;
              && TableRows(lines) == TableRows(lines[..n]) + (if TableOpen(lines[..n]) then Expand(lines[n]) else [])
              && (TablesSound(lines) <==> TablesSound(lines[..n]) && (TableOpen(lines[..n]) ==> RowOk(lines[n])))
  {
    hide TableOpen, Expand, RowOk;
  }

  /** Every line inside a table is sound. */
  ghost predicate AllSound(lines: seq<Line>) {
    forall k :: 0 <= k < |lines| && InTable(lines, k) ==> SoundRow(lines[k])
  }

  lemma {:induction false} SoundSnoc(lines: seq<Line>)
    requires lines != []
    ensures var n := |lines| - 1;
            AllSound(lines) <==> AllSound(lines[..n]) && (InTable(lines, n) ==> SoundRow(lines[n]))
  {
    hide InTable, SoundRow;
    var n := |lines| - 1;
    forall k | 0 <= k <= n ensures InTable(lines[..n], k) == InTable(lines, k) {
      InTableFront(lines, k, n);
    }
    assert forall k :: 0 <= k < n ==> lines[..n][k] == lines[k];
  }

  /** The rows inside tables, in line order and then method order. */
  lemma {:induction false} TableRowsMean(lines: seq<Line>)
    ensures TableRows(lines) == Flatten(TableChunks(lines)) && (TablesSound(lines) <==> AllSound(lines))
  {
    hide RowOk, SoundRow, RowEndpoints, Expand, TableOpen, InTable, TableRows, TablesSound, TableChunks, Flatten;
    TablesUnfold(lines);
    if lines != [] {
      hide AllSound;
      var n := |lines| - 1;
      TableRowsMean(lines[..n]);
      OpenIsInTable(lines[..n]);
      InTableFront(lines, n, n);
      RowEndpointsAre(lines[n]);
      SoundRowIs(lines[n]);
      ChunksSnoc(lines);
      SoundSnoc(lines);
    }
  }

  /** What `endpoints` answers: a refusal exactly for a line inside a table that is no sound
      row, or for more than 4096 endpoints; otherwise the rows inside tables. */
  lemma {:induction false} TableMeans(lines: seq<Line>)
    ensures Table(lines).Some? <==> AllSound(lines) && |Flatten(TableChunks(lines))| <= 4096
    ensures Table(lines).Some? ==> Table(lines).value == Flatten(TableChunks(lines))
  {
    TableRowsMean(lines);
    assert MAX_OPERATIONS == 4096;
    hide AllSound, TableRows, TablesSound, TableChunks, Flatten;
  }

  // ----- Parts

  /** `at` lists the headings. */
  ghost predicate HeadingsAt(lines: seq<Line>, at: seq<nat>) {
    && (forall i, j :: 0 <= i < j < |at| ==> at[i] < at[j])
    && (forall i :: 0 <= i < |at| ==> at[i] < |lines| && lines[at[i]].Heading?)
    && (forall k :: 0 <= k < |lines| && lines[k].Heading? ==> k in at)
  }

  /** Where the part before heading `i` ends. */
  function EndOf(lines: seq<Line>, at: seq<nat>, i: nat): (e: nat)
    ensures e <= |lines|
  {
    if i < |at| && at[i] <= |lines| then at[i] else |lines|
  }

  /** Part 0 is the document before the first heading; part `i + 1` belongs to heading `i` and
      has the lines up to the next heading. */
  function PartOf(lines: seq<Line>, at: seq<nat>, i: nat): Part {
    if 0 < i <= |at| && at[i - 1] < EndOf(lines, at, i) && lines[at[i - 1]].Heading? then
      var h := lines[at[i - 1]];
      Part(h.level, h.title, h.slug, lines[at[i - 1] + 1..EndOf(lines, at, i)])
    else Part(0, "document", "document", lines[..EndOf(lines, at, 0)])
  }

  ghost predicate PartsAre(lines: seq<Line>, parts: seq<Part>, at: seq<nat>) {
    && HeadingsAt(lines, at) && |parts| == |at| + 1
    && forall i :: 0 <= i <= |at| ==> parts[i] == PartOf(lines, at, i)
  }

  lemma {:induction false} PartsMean(lines: seq<Line>) returns (at: seq<nat>)
    ensures PartsAre(lines, Parts(lines), at)
  {
    hide PartsAre;
    at := [];
    if lines == [] {
      NoParts();
    } else {
      var n := |lines| - 1;
      at := PartsMean(lines[..n]);
      if lines[n].Heading? {
        HeadingPart(lines, Parts(lines[..n]), at);
        at := at + [n];
      } else {
        LongerPart(lines, Parts(lines[..n]), at);
      }
    }
  }

  lemma {:induction false} NoParts()
    ensures PartsAre([], Parts([]), [])
  {
  }

  lemma {:induction false} HeadingsFront(lines: seq<Line>, at: seq<nat>)
    requires lines != [] && HeadingsAt(lines[..|lines| - 1], at)
    ensures HeadingsAt(lines, if lines[|lines| - 1].Heading? then at + [|lines| - 1] else at)
  {
    var n := |lines| - 1;
    var front, all := lines[..n], if lines[n].Heading? then at + [n] else at;
    forall k | 0 <= k < |lines| && lines[k].Heading? ensures k in all {
      if k < n {
        assert front[k] == lines[k] && k in at;
      } else {
        assert all[|at|] == n;
      }
    }
    assert forall i :: 0 <= i < |at| ==> front[at[i]] == lines[at[i]];
  }

  lemma {:induction false} FrontSlice(lines: seq<Line>, n: nat, a: nat, b: nat)
    requires a <= b <= n <= |lines|
    ensures lines[..n][a..b] == lines[a..b] && (a == 0 ==> lines[..n][..b] == lines[..b])
  {
  }

  /** A part that ends before the last line is the same without that line. */
  lemma {:induction false} PartKept(lines: seq<Line>, at: seq<nat>, longer: seq<nat>, i: nat)
    requires lines != [] && HeadingsAt(lines[..|lines| - 1], at) && at <= longer && i <= |at|
    requires EndOf(lines, longer, i) == EndOf(lines[..|lines| - 1], at, i)
    requires EndOf(lines, longer, 0) == EndOf(lines[..|lines| - 1], at, 0)
    ensures PartOf(lines, longer, i) == PartOf(lines[..|lines| - 1], at, i)
  {
    var n := |lines| - 1;
    var front := lines[..n];
    if 0 < i {
      assert longer[i - 1] == at[i - 1] && front[at[i - 1]] == lines[at[i - 1]];
      FrontSlice(lines, n, at[i - 1] + 1, EndOf(front, at, i));
    } else {
      FrontSlice(lines, n, 0, EndOf(front, at, 0));
    }
  }

  lemma {:induction false} EndKept(lines: seq<Line>, at: seq<nat>, longer: seq<nat>, i: nat)
    requires lines != [] && HeadingsAt(lines[..|lines| - 1], at) && at <= longer && i < |at|
    ensures EndOf(lines, longer, i) == EndOf(lines[..|lines| - 1], at, i) == at[i]
  {
    assert longer[i] == at[i] && at[i] < |lines| - 1;
  }

  lemma {:induction false} HeadingPart(lines: seq<Line>, parts: seq<Part>, at: seq<nat>)
    requires lines != [] && lines[|lines| - 1].Heading? && PartsAre(lines[..|lines| - 1], parts, at)
    ensures var line := lines[|lines| - 1];
            PartsAre(lines, parts + [Part(line.level, line.title, line.slug, [])], at + [|lines| - 1])
  {
    var n, line := |lines| - 1, lines[|lines| - 1];
    var all, longer := parts + [Part(line.level, line.title, line.slug, [])], at + [n];
    HeadingsFront(lines, at);
    assert EndOf(lines[..n], at, |at|) == n && EndOf(lines, longer, |at|) == n;
    assert EndOf(lines, longer, |at| + 1) == n + 1 && lines[n + 1..n + 1] == [];
    assert PartOf(lines, longer, |at| + 1) == all[|at| + 1];
    hide PartOf, HeadingsAt, EndOf;
    forall i | 0 <= i <= |at| ensures all[i] == PartOf(lines, longer, i) {
      if i < |at| {
        EndKept(lines, at, longer, i);
      }
      if 0 < |at| {
        EndKept(lines, at, longer, 0);
      }
      PartKept(lines, at, longer, i);
    }
  }

  lemma {:induction false} LongerPart(lines: seq<Line>, parts: seq<Part>, at: seq<nat>)
    requires lines != [] && !lines[|lines| - 1].Heading? && PartsAre(lines[..|lines| - 1], parts, at)
    ensures var last := |parts| - 1;
            PartsAre(lines, parts[last := parts[last].(lines := parts[last].lines + [lines[|lines| - 1]])], at)
  {
    hide PartOf, HeadingsAt, EndOf;
    var n, last := |lines| - 1, |parts| - 1;
    var all := parts[last := parts[last].(lines := parts[last].lines + [lines[n]])];
    HeadingsFront(lines, at);
    LastLonger(lines, at);
    assert parts[last] == PartOf(lines[..n], at, |at|);
    forall i | 0 <= i < last ensures all[i] == PartOf(lines, at, i) {
      EndKept(lines, at, at, i);
      EndKept(lines, at, at, 0);
      PartKept(lines, at, at, i);
    }
  }

  lemma {:induction false} LastLonger(lines: seq<Line>, at: seq<nat>)
    requires lines != [] && HeadingsAt(lines[..|lines| - 1], at)
    ensures var part := PartOf(lines[..|lines| - 1], at, |at|);
            PartOf(lines, at, |at|) == part.(lines := part.lines + [lines[|lines| - 1]])
  {
    var n := |lines| - 1;
    var front := lines[..n];
    if at == [] {
      assert lines[..n + 1] == front[..n] + [lines[n]];
    } else {
      var h := at[|at| - 1];
      assert front[h] == lines[h] && lines[h + 1..n + 1] == front[h + 1..n] + [lines[n]];
    }
  }

  // ----- Field rows and operations

  function RowFields(lines: seq<Line>, section: string): seq<seq<Field>> {
    seq(|lines|, k requires 0 <= k < |lines| =>
          if lines[k].FieldRow? then [Field(lines[k].name, section, lines[k].signature)] else [])
  }

  lemma {:induction false} FieldRowsMean(lines: seq<Line>, section: string)
    ensures FieldRows(lines, section) == Flatten(RowFields(lines, section))
  {
    if lines != [] {
      var n := |lines| - 1;
      FieldRowsMean(lines[..n], section);
      var last := if lines[n].FieldRow? then [Field(lines[n].name, section, lines[n].signature)] else [];
      FlattenSnoc(RowFields(lines[..n], section), last);
      assert RowFields(lines, section) == RowFields(lines[..n], section) + [last];
      hide Flatten;
    }
  }

  /** Everything after part `i`, up to part `j`, is deeper: `j` stands in the section of `i`. */
  ghost predicate Within(parts: seq<Part>, i: nat, j: nat) {
    i <= j < |parts| && forall k :: i < k <= j ==> parts[k].level > parts[i].level
  }

  ghost predicate HasEndpoints(parts: seq<Part>, i: nat)
    requires i < |parts|
  {
    Flatten(TableChunks(parts[i].lines)) != []
  }

  /** Part `i` has endpoints, part `j` stands in its section, and in that of no later part
      with endpoints. */
  ghost predicate BornBy(parts: seq<Part>, i: nat, j: nat) {
    && Within(parts, i, j) && HasEndpoints(parts, i)
    && forall k :: i < k <= j && Within(parts, k, j) ==> !HasEndpoints(parts, k)
  }

  /** The sections above a part are those of its parent and its own. */
  lemma {:induction false} WithinParent(parts: seq<Part>, i: nat, j: nat)
    requires Rooted(parts) && 0 < j < |parts| && i < j
    ensures Within(parts, i, j) <==> Within(parts, i, Parent(LevelsOf(parts), j))
  {
    var levels := LevelsOf(parts);
    var p := Parent(levels, j);
    hide LevelsOf;
    if Within(parts, i, j) {
      assert parts[i].level < parts[j].level;
      assert i <= p;
    }
    if Within(parts, i, p) {
      assert parts[p].level >= parts[i].level;
    }
  }

  lemma {:induction false} BearerMeans(parts: seq<Part>, i: nat, j: nat)
    requires Rooted(parts) && j < |parts|
    ensures Bearer(parts, j) == Some(i) <==> BornBy(parts, i, j)
    decreases j
  {
    var levels := LevelsOf(parts);
    forall k | 0 <= k < |parts| ensures Bears(parts)[k] <==> HasEndpoints(parts, k) {
      TableRowsMean(parts[k].lines);
    }
    hide HasEndpoints, TableRows, Flatten;
    if Bears(parts)[j] {
      assert Within(parts, j, j);
    } else if j == 0 {
    } else {
      var p := Parent(levels, j);
      BearerMeans(parts, i, p);
      BornByParent(parts, i, j);
    }
  }

  lemma {:induction false} BornByParent(parts: seq<Part>, i: nat, j: nat)
    requires Rooted(parts) && 0 < j < |parts| && !HasEndpoints(parts, j)
    ensures BornBy(parts, i, j) <==> BornBy(parts, i, Parent(LevelsOf(parts), j))
  {
    var p := Parent(LevelsOf(parts), j);
    forall k: nat | k < j ensures Within(parts, k, j) <==> Within(parts, k, p) {
      WithinParent(parts, k, j);
    }
    hide HasEndpoints, LevelsOf, Within, Rooted;
    assert forall k: nat :: Within(parts, k, p) ==> k <= p by {
      WithinBelow(parts, p);
    }
  }

  lemma {:induction false} WithinBelow(parts: seq<Part>, j: nat)
    ensures forall i: nat :: Within(parts, i, j) ==> i <= j
  {
  }

  /** The rows of every part whose fields are borne by `i`: its own under the name body, the
      others under the name of their part. */
  ghost function BorneFields(parts: seq<Part>, i: nat, n: nat): seq<seq<Field>>
    requires n <= |parts|
  {
    seq(n, j requires 0 <= j < n =>
          if BornBy(parts, i, j)
          then Flatten(RowFields(parts[j].lines, if j == i then "body" else parts[j].slug))
          else [])
  }

  lemma {:induction false} FieldsOfMean(parts: seq<Part>, i: nat, n: nat)
    requires Rooted(parts) && n <= |parts|
    ensures FieldsOf(parts, i, n) == Flatten(BorneFields(parts, i, n))
  {
    hide FieldsOf, Bearer, BornBy, Rooted, FieldRows, RowFields, Flatten;
    if n == 0 {
      FieldsZero(parts, i);
      FlattenNone<Field>();
      assert BorneFields(parts, i, 0) == [];
    } else {
      FieldsOfMean(parts, i, n - 1);
      FieldsSnoc(parts, i, n);
      FieldRowsMean(parts[n - 1].lines, Tag(parts, i, n - 1));
      BearerMeans(parts, i, n - 1);
      var last :=
        if BornBy(parts, i, n - 1)
        then Flatten(RowFields(parts[n - 1].lines, if n - 1 == i then "body" else parts[n - 1].slug))
        else [];
      FlattenSnoc(BorneFields(parts, i, n - 1), last);
      assert BorneFields(parts, i, n) == BorneFields(parts, i, n - 1) + [last];
    }
  }

  /** The operations of a part: one for each endpoint of its tables, under its title, with
      the fields it bears. */
  ghost function PartOperations(source: string, parts: seq<Part>, i: nat): seq<Operation>
    requires Rooted(parts) && i < |parts|
  {
    var eps, fields := Flatten(TableChunks(parts[i].lines)), Flatten(BorneFields(parts, i, |parts|));
    seq(|eps|, t requires 0 <= t < |eps| =>
          Operation(eps[t].verb, eps[t].path, eps[t].style, parts[i].title, source, fields))
  }

  ghost function AllOperations(source: string, parts: seq<Part>, n: nat): seq<seq<Operation>>
    requires Rooted(parts) && n <= |parts|
  {
    seq(n, i requires 0 <= i < n => PartOperations(source, parts, i))
  }

  lemma {:induction false} PartIs(source: string, parts: seq<Part>, i: nat)
    requires Rooted(parts) && i < |parts|
    ensures SectionOps(source, parts[i].title, TableRows(parts[i].lines), FieldsOf(parts, i, |parts|))
         == PartOperations(source, parts, i)
  {
    hide Flatten, TableChunks, BorneFields, FieldsOf, TableRows, Rooted, AllSound, TablesSound;
    TableRowsMean(parts[i].lines);
    FieldsOfMean(parts, i, |parts|);
  }

  lemma {:induction false} OpsUnfold(source: string, parts: seq<Part>, n: nat)
    requires Rooted(parts) && n <= |parts|
    ensures n == 0 ==> Ops(source, parts, n) == []
    ensures n > 0 ==>
              Ops(source, parts, n)
                == Ops(source, parts, n - 1)
                   + SectionOps(source, parts[n - 1].title, TableRows(parts[n - 1].lines), FieldsOf(parts, n - 1,
                                                                                                    |parts|))
  {
    hide SectionOps, TableRows, FieldsOf;
  }

  lemma {:induction false} OpsMean(source: string, parts: seq<Part>, n: nat)
    requires Rooted(parts) && n <= |parts|
    ensures Ops(source, parts, n) == Flatten(AllOperations(source, parts, n))
  {
    hide Ops, SectionOps, PartOperations, Flatten, TableRows, FieldsOf, Rooted;
    OpsUnfold(source, parts, n);
    if n == 0 {
      FlattenNone<Operation>();
      assert AllOperations(source, parts, 0) == [];
    } else {
      OpsMean(source, parts, n - 1);
      PartIs(source, parts, n - 1);
      FlattenSnoc(AllOperations(source, parts, n - 1), PartOperations(source, parts, n - 1));
      assert AllOperations(source, parts, n)
          == AllOperations(source, parts, n - 1) + [PartOperations(source, parts, n - 1)];
    }
  }

  /** What a text means: part by part, endpoint by endpoint. */
  lemma {:induction false} MeaningIs(source: string, lines: seq<Line>)
    ensures var parts := Parts(Strip(lines));
            Meaning(source, lines) == Flatten(AllOperations(source, parts, |parts|))
  {
    hide Ops, AllOperations, Flatten, Parts, Strip;
    OpsMean(source, Parts(Strip(lines)), |Parts(Strip(lines))|);
  }

  // ----- Which texts are accepted

  /** Not empty, short enough in UTF-8, and without control characters. */
  predicate TextOk(s: string, maximum: nat) {
    s != "" && Utf8Length(s) <= maximum
    && forall i :: 0 <= i < |s| ==> s[i] as int >= 0x20 && s[i] as int != 0x7F
  }

  lemma {:induction false} TextOkIs(s: string, maximum: nat)
    ensures TextOk(s, maximum) <==> ValidText(s, maximum)
  {
  }

  /** The bytes of a character in UTF-8 (section 3 of RFC 3629). */
  function Encoded(c: char): seq<nat> {
    var n := c as int;
    if n < 0x80 then [n]
    else if n < 0x800 then [0xC0 + n / 64, 0x80 + n % 64]
    else if n < 0x1_0000 then [0xE0 + n / 4096, 0x80 + n / 64 % 64, 0x80 + n % 64]
    else [0xF0 + n / 262144, 0x80 + n / 4096 % 64, 0x80 + n / 64 % 64, 0x80 + n % 64]
  }

  function Utf8(s: string): seq<nat> {
    if s == "" then [] else Encoded(s[0]) + Utf8(s[1..])
  }

  /** The measured length is the number of bytes, and every byte is one. */
  lemma {:induction false} Utf8Is(s: string)
    ensures |Utf8(s)| == Utf8Length(s)
    ensures forall i :: 0 <= i < |Utf8(s)| ==> Utf8(s)[i] < 256
  {
    if s != "" {
      Utf8Is(s[1..]);
      assert s[0] as int < 0x11_0000;
    }
  }

  ghost predicate RowTextsOk(lines: seq<Line>) {
    forall r :: 0 <= r < |lines| && lines[r].FieldRow? ==> TextOk(lines[r].name, 256) && TextOk(lines[r].signature, 512)
  }

  lemma {:induction false} RowTextsAre(lines: seq<Line>)
    ensures RowTextsOk(lines) <==> FieldsSound(lines)
  {
    forall r | 0 <= r < |lines| && lines[r].FieldRow?
      ensures TextOk(lines[r].name, 256) <==> ValidText(lines[r].name, MAX_NAME)
      ensures TextOk(lines[r].signature, 512) <==> ValidText(lines[r].signature, MAX_SIGNATURE)
    {
      TextOkIs(lines[r].name, 256);
      TextOkIs(lines[r].signature, 512);
    }
    hide TextOk, ValidText;
  }

  ghost predicate TitleTextsOk(lines: seq<Line>) {
    forall k :: 0 <= k < |lines| && lines[k].Heading? ==> TextOk(lines[k].title, 512)
  }

  lemma {:induction false} TitleTextsAre(lines: seq<Line>)
    ensures TitleTextsOk(lines) <==> TitlesOk(lines)
  {
    forall k | 0 <= k < |lines| && lines[k].Heading?
      ensures TextOk(lines[k].title, 512) <==> ValidText(lines[k].title, MAX_TITLE)
    {
      TextOkIs(lines[k].title, 512);
    }
    hide TextOk, ValidText;
  }

  /** The rows a part bears are sound, its sections are named soundly, and there are at most 1024. */
  ghost predicate BearsSoundly(parts: seq<Part>, i: nat)
    requires Rooted(parts)
  {
    && (forall j :: 0 <= j < |parts| && BornBy(parts, i, j) ==>
          RowTextsOk(parts[j].lines) && (j == i || TextOk(parts[j].slug, 128)))
    && |Flatten(BorneFields(parts, i, |parts|))| <= 1024
  }

  lemma {:induction false} BearsSoundlyIs(parts: seq<Part>, i: nat)
    requires Rooted(parts)
    ensures BearsSoundly(parts, i) <==> FieldsOk(parts, i)
  {
    hide Flatten, BorneFields, FieldsOf, Bearer, BornBy, Rooted, RowTextsOk, FieldsSound, TextOk, ValidText;
    FieldsOfMean(parts, i, |parts|);
    forall j | 0 <= j < |parts|
      ensures Bearer(parts, j) == Some(i) <==> BornBy(parts, i, j)
      ensures RowTextsOk(parts[j].lines) <==> FieldsSound(parts[j].lines)
      ensures TextOk(parts[j].slug, 128) <==> ValidText(parts[j].slug, MAX_LABEL)
    {
      BearerMeans(parts, i, j);
      RowTextsAre(parts[j].lines);
      TextOkIs(parts[j].slug, 128);
    }
  }

  /** Sound tables everywhere, and sound fields wherever a part has endpoints. */
  ghost predicate PartsAcceptable(parts: seq<Part>)
    requires Rooted(parts)
  {
    && (forall k :: 0 <= k < |parts| ==> AllSound(parts[k].lines) && |Flatten(TableChunks(parts[k].lines))| <= 4096)
    && (forall k :: 0 <= k < |parts| && Flatten(TableChunks(parts[k].lines)) != [] ==> BearsSoundly(parts, k))
  }

  lemma {:induction false} PartsAcceptableIs(parts: seq<Part>)
    requires Rooted(parts)
    ensures PartsAcceptable(parts) <==> TablesOk(parts) && AllFieldsOk(parts, |parts|)
  {
    hide AllSound, Flatten, TableChunks, BearsSoundly, FieldsOk, TableRows, TablesSound, Table, Rooted;
    forall k | 0 <= k < |parts|
      ensures Table(parts[k].lines).Some? <==>
                AllSound(parts[k].lines) && |Flatten(TableChunks(parts[k].lines))| <= 4096
      ensures Bears(parts)[k] <==> Flatten(TableChunks(parts[k].lines)) != []
      ensures BearsSoundly(parts, k) <==> FieldsOk(parts, k)
    {
      TableMeans(parts[k].lines);
      TableRowsMean(parts[k].lines);
      BearsSoundlyIs(parts, k);
    }
  }

  /** The limits on a text: closed fences, sound titles, at most 8192 parts, sound parts. */
  ghost predicate Acceptable(lines: seq<Line>) {
    var text := Strip(lines);
    && FenceAfter(lines).None? && TitleTextsOk(text)
    && |Parts(text)| <= 8192 && PartsAcceptable(Parts(text))
  }

  lemma {:induction false} ReadableMeans(lines: seq<Line>)
    ensures Readable(lines) <==> Acceptable(lines)
  {
    hide Parts, Strip, FenceAfter, TitlesOk, TitleTextsOk, TablesOk, AllFieldsOk, PartsAcceptable;
    TitleTextsAre(Strip(lines));
    PartsAcceptableIs(Parts(Strip(lines)));
  }

  // ----- The whole file

  /** The fields of every operation. */
  function FieldLists(ops: seq<Operation>): seq<seq<Field>> {
    seq(|ops|, k requires 0 <= k < |ops| => ops[k].fields)
  }

  /** The cost of operations is the number of their fields. */
  lemma {:induction false} CostIs(ops: seq<Operation>)
    ensures Cost(ops) == |Flatten(FieldLists(ops))|
  {
    if ops == [] {
      FlattenNone<Field>();
    } else {
      var n := |ops| - 1;
      CostIs(ops[..n]);
      FlattenSnoc(FieldLists(ops[..n]), ops[n].fields);
      assert FieldLists(ops) == FieldLists(ops[..n]) + [ops[n].fields];
    }
  }

  /** `parse`, by what it means. */
  method ParseFile(source: string, size: nat, lines: seq<Line>) returns (r: Option<seq<Operation>>)
    ensures var parts := Parts(Strip(lines));
            var all := Flatten(AllOperations(source, parts, |parts|));
            && (r.Some? <==>
                  size <= 2097152 && Acceptable(lines) && |all| <= 4096 && |Flatten(FieldLists(all))| <= 65536)
            && (r.Some? ==> r.value == all)
  {
    hide Acceptable, Readable, Meaning, AllOperations, Flatten, Parts, Strip, Cost, FieldLists;
    var budget := new ExpansionBudget();
    ReadableMeans(lines);
    MeaningIs(source, lines);
    CostIs(Meaning(source, lines));
    r := Parse(source, size, lines, budget);
  }
}
