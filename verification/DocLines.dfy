/** Lines of a documentation file: fences, headings, endpoint tables and field rows
    (scripts/openbao_documentation_v2.py, the loops of parse and endpoints). Lines arrive
    already classified by the source's regular expressions. */
module DocLines {
  import opened Text

  const MAX_OPERATIONS := 4096
  const MAX_TITLE := 512
  const MAX_PATH := 4096
  const MAX_NAME := 256
  const MAX_SIGNATURE := 512
  const MAX_LABEL := 128
  const DOCUMENTED_METHODS := {"ACME", "DELETE", "GET", "HEAD", "LIST", "PATCH", "POST", "PUT", "SCAN"}

  type Level = n: nat | 1 <= n <= 6 witness 1

  /** `bare` says that nothing but blanks follows the fence characters; `slug` is the title
      in lower case with dashes; `verbs` is None for a malformed method list; the path is
      unescaped. The three kinds after TableHeader are the other lines that start with a bar. */
  datatype Line =
    | Fence(mark: char, length: nat, bare: bool)
    | Heading(level: Level, title: string, slug: string)
    | TableHeader
    | TableRule
    | TableRow(verbs: Option<seq<string>>, path: string)
    | BadRow
    | FieldRow(name: string, signature: string)
    | Plain

  // ----- Text limits

  function Utf8Size(c: char): nat {
    if c as int < 0x80 then 1 else if c as int < 0x800 then 2 else if c as int < 0x1_0000 then 3 else 4
  }

  function Utf8Length(s: string): nat {
    if s == [] then 0 else Utf8Size(s[0]) + Utf8Length(s[1..])
  }

  /** `validate_text` */
  predicate ValidText(s: string, maximum: nat) {
    && s != [] && Utf8Length(s) <= maximum
    && forall i :: 0 <= i < |s| ==> s[i] as int >= 0x20 && s[i] as int != 0x7F
  }

  // ----- Fences

  datatype Opened = Opened(mark: char, length: nat)

  /** The fence state after one line. A fence closes at a bare fence line of the same
      character that is at least as long. */
  function FenceStep(open: Option<Opened>, line: Line): Option<Opened> {
    if open.Some? then
      var closes := line.Fence? && line.mark == open.value.mark && line.length >= open.value.length && line.bare;
      if closes then None else open
    else if line.Fence? then Some(Opened(line.mark, line.length))
    else None
  }

  function FenceAfter(lines: seq<Line>): Option<Opened> {
    if lines == [] then None
    else FenceStep(FenceAfter(lines[..|lines| - 1]), lines[|lines| - 1])
  }

  /** The text without fence lines and without anything inside a fence. */
  function Strip(lines: seq<Line>): seq<Line> {
    if lines == [] then []
    else
      var n := |lines| - 1;
      Strip(lines[..n]) + (if FenceAfter(lines[..n]).None? && !lines[n].Fence? then [lines[n]] else [])
  }

  lemma {:induction false} StripHasNoFence(lines: seq<Line>)
    ensures forall line :: line in Strip(lines) ==> !line.Fence?
  {
    if lines != [] {
      StripHasNoFence(lines[..|lines| - 1]);
    }
  }

  lemma {:induction false} NoFenceOpen(lines: seq<Line>)
    requires forall k :: 0 <= k < |lines| ==> !lines[k].Fence?
    ensures FenceAfter(lines).None?
  {
    if lines != [] {
      NoFenceOpen(lines[..|lines| - 1]);
    }
  }

  lemma {:induction false} WithoutFence(lines: seq<Line>)
    requires forall k :: 0 <= k < |lines| ==> !lines[k].Fence?
    ensures FenceAfter(lines).None? && Strip(lines) == lines
  {
    NoFenceOpen(lines);
    hide FenceAfter;
    if lines != [] {
      var front := lines[..|lines| - 1];
      WithoutFence(front);
      assert lines == front + [lines[|lines| - 1]];
    }
  }

  /** Stripping is complete: what is left has no fences, and stripping it again changes nothing. */
  lemma {:induction false} StripTwice(lines: seq<Line>)
    ensures FenceAfter(Strip(lines)).None? && Strip(Strip(lines)) == Strip(lines)
  {
    StripHasNoFence(lines);
    WithoutFence(Strip(lines));
  }

  lemma {:induction false} StripPrefix(lines: seq<Line>, k: nat)
    requires k <= |lines|
    ensures Strip(lines[..k]) <= Strip(lines)
  {
    if k < |lines| {
      StripPrefix(lines[..|lines| - 1], k);
      assert lines[..|lines| - 1][..k] == lines[..k];
    } else {
      assert lines[..k] == lines;
    }
  }

  // ----- Headings cut the text into parts

  /** A heading with the lines up to the next heading; the first part has no heading. */
  datatype Part = Part(level: nat, title: string, slug: string, lines: seq<Line>)

  /** The first part stands for the whole document, above every heading. */
  predicate Rooted(parts: seq<Part>) {
    parts != [] && parts[0].level == 0 && forall k :: 0 < k < |parts| ==> parts[k].level > 0
  }

  function Parts(lines: seq<Line>): (parts: seq<Part>)
    ensures Rooted(parts)
  {
    if lines == [] then [Part(0, "document", "document", [])]
    else
      var front, line := Parts(lines[..|lines| - 1]), lines[|lines| - 1];
      if line.Heading? then front + [Part(line.level, line.title, line.slug, [])]
      else
        var last := |front| - 1;
        front[last := front[last].(lines := front[last].lines + [line])]
  }

  ghost predicate TitlesOk(lines: seq<Line>) {
    forall line :: line in lines && line.Heading? ==> ValidText(line.title, MAX_TITLE)
  }

  lemma {:induction false} PartsGrow(lines: seq<Line>, k: nat)
    requires k <= |lines|
    ensures |Parts(lines[..k])| <= |Parts(lines)|
  {
    if k < |lines| {
      PartsGrow(lines[..|lines| - 1], k);
      assert lines[..|lines| - 1][..k] == lines[..k];
    } else {
      assert lines[..k] == lines;
    }
  }

  // ----- Endpoint tables

  /** One documented endpoint, with its path made absolute. */
  datatype Endpoint = Endpoint(verb: string, path: string, style: string)

  predicate Bar(line: Line) {
    line.TableHeader? || line.TableRule? || line.TableRow? || line.BadRow?
  }

  /** A table is open after a header followed by bar lines only. */
  function TableOpen(lines: seq<Line>): bool {
    lines != [] &&
    (lines[|lines| - 1].TableHeader? || (Bar(lines[|lines| - 1]) && TableOpen(lines[..|lines| - 1])))
  }

  predicate DistinctVerbs(verbs: seq<string>) {
    |set v | v in verbs| == |verbs|
  }

  predicate RowOk(line: Line) {
    match line
    case TableRow(verbs, path) =>
      verbs.Some? && DistinctVerbs(verbs.value) && (forall v :: v in verbs.value ==> v in DOCUMENTED_METHODS)
      && ValidText(path, MAX_PATH)
    case BadRow => false
    case _ => true
  }

  function Absolute(verb: string, path: string): Endpoint {
    if StartsWith(path, "/") then Endpoint(verb, path, "absolute")
    else Endpoint(verb, "/" + path, "relative-normalized")
  }

  function Expand(line: Line): seq<Endpoint> {
    if line.TableRow? && line.verbs.Some? then
      seq(|line.verbs.value|, i requires 0 <= i < |line.verbs.value| => Absolute(line.verbs.value[i], line.path))
    else []
  }

  /** The rows inside tables, expanded in order. */
  function TableRows(lines: seq<Line>): seq<Endpoint> {
    if lines == [] then []
    else
      var front := lines[..|lines| - 1];
      TableRows(front) + (if TableOpen(front) then Expand(lines[|lines| - 1]) else [])
  }

  /** Every line met inside a table, other than a header, rule or end, is a sound row. */
  predicate TablesSound(lines: seq<Line>) {
    lines == [] ||
    (var front := lines[..|lines| - 1];
     TablesSound(front) && (TableOpen(front) ==> RowOk(lines[|lines| - 1])))
  }

  function Table(lines: seq<Line>): Option<seq<Endpoint>> {
    if TablesSound(lines) && |TableRows(lines)| <= MAX_OPERATIONS then Some(TableRows(lines)) else None
  }

  lemma {:induction false} TablePrefix(lines: seq<Line>, k: nat)
    requires k <= |lines|
    ensures TablesSound(lines) ==> TablesSound(lines[..k])
    ensures |TableRows(lines[..k])| <= |TableRows(lines)|
  {
    if k < |lines| {
      TablePrefix(lines[..|lines| - 1], k);
      assert lines[..|lines| - 1][..k] == lines[..k];
    } else {
      assert lines[..k] == lines;
    }
  }

  /** `endpoints` */
  method Endpoints(lines: seq<Line>) returns (r: Option<seq<Endpoint>>)
    ensures r == Table(lines)
  {
    var result: seq<Endpoint>, inTable, k := [], false, 0;
    assert lines[..0] == [];
    while k < |lines|
      invariant 0 <= k <= |lines|
      invariant inTable == TableOpen(lines[..k]) && result == TableRows(lines[..k])
      invariant TablesSound(lines[..k]) && |result| <= MAX_OPERATIONS
    {
      var line := lines[k];
      assert lines[..k + 1][..k] == lines[..k] && lines[..k + 1][k] == line;
      TablePrefix(lines, k + 1);
      hide ValidText, Absolute, DistinctVerbs;
      if line.TableHeader? {
        inTable := true;
      } else if inTable {
        if !Bar(line) {
          inTable := false;
        } else {
          if !RowOk(line) {
            return None;
          }
          result := result + Expand(line);
          if |result| > MAX_OPERATIONS {
            return None;
          }
        }
      }
      k := k + 1;
    }
    assert lines[..k] == lines;
    r := Some(result);
  }

  // ----- Field rows

  datatype Field = Field(name: string, section: string, signature: string)

  function FieldRows(lines: seq<Line>, tag: string): seq<Field> {
    if lines == [] then []
    else
      var n := |lines| - 1;
      FieldRows(lines[..n], tag)
        + (if lines[n].FieldRow? then [Field(lines[n].name, tag, lines[n].signature)] else [])
  }

  predicate FieldsSound(lines: seq<Line>) {
    forall i :: 0 <= i < |lines| && lines[i].FieldRow? ==>
      ValidText(lines[i].name, MAX_NAME) && ValidText(lines[i].signature, MAX_SIGNATURE)
  }

  lemma {:induction false} FieldRowsCount(lines: seq<Line>, a: string, b: string)
    ensures |FieldRows(lines, a)| == |FieldRows(lines, b)|
  {
    if lines != [] {
      FieldRowsCount(lines[..|lines| - 1], a, b);
    }
  }

  lemma {:induction false} FieldRowsGrow(lines: seq<Line>, k: nat, a: string)
    requires k <= |lines|
    ensures |FieldRows(lines[..k], a)| <= |FieldRows(lines, a)|
  {
    if k < |lines| {
      FieldRowsGrow(lines[..|lines| - 1], k, a);
      assert lines[..|lines| - 1][..k] == lines[..k];
    } else {
      assert lines[..k] == lines;
    }
  }
}
