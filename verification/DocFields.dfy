/** The fields below a section, collected by a recursion over its children that does not
    enter children with endpoints of their own
    (scripts/openbao_documentation_v2.py, fields_for inside parse). */
module DocFields {
  import opened Text
  import opened Outline
  import opened DocLines
  import opened DocTree

  const MAX_FIELDS_PER_SECTION := 1024

  /** Which parts hold endpoints. */
  function Bears(parts: seq<Part>): (bears: seq<bool>)
    ensures |bears| == |parts| && forall k :: 0 <= k < |parts| ==> bears[k] == (TableRows(parts[k].lines) != [])
  {
    seq(|parts|, k requires 0 <= k < |parts| => TableRows(parts[k].lines) != [])
  }

  /** Every section knows the endpoints of its tables. */
  ghost predicate Filled(sections: seq<Section>, parts: seq<Part>)
    reads sections
  {
    && Tree(sections, parts)
    && forall k :: 0 <= k < |sections| ==> sections[k].endpoints == TableRows(parts[k].lines)
  }

  // ----- What the recursion visits

  /** The parts visited below part `i`, entered through its children among the first `m` parts. */
  function Below(parts: seq<Part>, i: nat, m: nat): seq<nat>
    requires Rooted(parts) && i < |parts| && m <= |parts|
  {
    Forest(LevelsOf(parts), Bears(parts), i, m, |parts|)
  }

  function RowsAt(parts: seq<Part>, j: nat): seq<Field> {
    if j < |parts| then FieldRows(parts[j].lines, parts[j].slug) else []
  }

  /** The rows of the visited parts, each under the name of its own part. */
  function Gather(parts: seq<Part>, visited: seq<nat>): seq<Field> {
    if visited == [] then []
    else Gather(parts, visited[..|visited| - 1]) + RowsAt(parts, visited[|visited| - 1])
  }

  ghost predicate Sound(parts: seq<Part>, visited: seq<nat>) {
    forall j :: j in visited && j < |parts| ==> FieldsSound(parts[j].lines) && ValidText(parts[j].slug, MAX_LABEL)
  }

  lemma {:induction false} GatherAppend(parts: seq<Part>, a: seq<nat>, b: seq<nat>)
    ensures Gather(parts, a + b) == Gather(parts, a) + Gather(parts, b)
  {
    if b == [] {
      assert a + b == a;
    } else {
      var last := |b| - 1;
      hide RowsAt;
      GatherAppend(parts, a, b[..last]);
      DropLast(a, b);
      AppendAssoc(Gather(parts, a), Gather(parts, b[..last]), RowsAt(parts, b[last]));
    }
  }

  lemma {:induction false} GatherOne(parts: seq<Part>, j: nat)
    requires j < |parts|
    ensures Gather(parts, [j]) == FieldRows(parts[j].lines, parts[j].slug)
  {
    assert [j][..0] == [];
  }

  /** The rows met on entering child `c`: its own, then those below it. */
  lemma {:induction false} GatherEnter(parts: seq<Part>, before: seq<nat>, c: nat, within: seq<nat>)
    requires c < |parts|
    ensures Gather(parts, before + ([c] + within))
         == Gather(parts, before) + (FieldRows(parts[c].lines, parts[c].slug) + Gather(parts, within))
  {
    GatherOne(parts, c);
    GatherAppend(parts, [c], within);
    GatherAppend(parts, before, [c] + within);
  }

  lemma {:induction false} SoundEnter(parts: seq<Part>, before: seq<nat>, c: nat, within: seq<nat>)
    requires c < |parts|
    ensures Sound(parts, before + ([c] + within)) <==>
              Sound(parts, before) && FieldsSound(parts[c].lines) && ValidText(parts[c].slug, MAX_LABEL)
              && Sound(parts, within)
  {
    hide FieldsSound, ValidText;
    var all := before + ([c] + within);
    assert forall j :: j in all <==> j in before || j == c || j in within;
  }

  lemma {:induction false} EnterChild(parts: seq<Part>, i: nat, c: nat)
    requires Rooted(parts) && i < |parts| && c < |parts|
    requires Child(LevelsOf(parts), i, c) && !Bears(parts)[c]
    ensures Below(parts, i, c + 1) == Below(parts, i, c) + ([c] + Below(parts, c, |parts|))
  {
    ForestEnter(LevelsOf(parts), Bears(parts), i, c, |parts|);
    hide Forest, Child;
  }

  lemma {:induction false} SkipChild(parts: seq<Part>, i: nat, c: nat)
    requires Rooted(parts) && i < |parts| && c < |parts| && Bears(parts)[c]
    ensures Below(parts, i, c + 1) == Below(parts, i, c)
  {
  }

  lemma {:induction false} GatherGrow(parts: seq<Part>, front: seq<nat>, all: seq<nat>)
    requires front <= all
    ensures Sound(parts, all) ==> Sound(parts, front)
    ensures |Gather(parts, front)| <= |Gather(parts, all)|
  {
    hide FieldsSound, ValidText, Gather;
    assert all == front + all[|front|..];
    GatherAppend(parts, front, all[|front|..]);
  }

  lemma {:induction false} BelowPrefix(parts: seq<Part>, i: nat, m: nat)
    requires Rooted(parts) && i < |parts| && m <= |parts|
    ensures Below(parts, i, m) <= Below(parts, i, |parts|)
  {
    hide Forest, LevelsOf, Bears;
    ForestGrow(LevelsOf(parts), Bears(parts), i, m, |parts|, |parts|);
  }

  /** What breaks a limit early on breaks it for the whole section. */
  lemma {:induction false} BelowGrow(parts: seq<Part>, i: nat, m: nat)
    requires Rooted(parts) && i < |parts| && m <= |parts|
    ensures Sound(parts, Below(parts, i, |parts|)) ==> Sound(parts, Below(parts, i, m))
    ensures |Gather(parts, Below(parts, i, m))| <= |Gather(parts, Below(parts, i, |parts|))|
  {
    hide Below, Gather, Sound, Rooted;
    BelowPrefix(parts, i, m);
    GatherGrow(parts, Below(parts, i, m), Below(parts, i, |parts|));
  }

  // ----- The recursion

  ghost predicate Collectible(parts: seq<Part>, i: nat)
    requires Rooted(parts) && i < |parts|
  {
    && FieldsSound(parts[i].lines) && Sound(parts, Below(parts, i, |parts|))
    && |FieldRows(parts[i].lines, "")| + |Gather(parts, Below(parts, i, |parts|))| <= MAX_FIELDS_PER_SECTION
  }

  function Collected(parts: seq<Part>, i: nat, tag: string): seq<Field>
    requires Rooted(parts) && i < |parts|
  {
    FieldRows(parts[i].lines, tag) + Gather(parts, Below(parts, i, |parts|))
  }

  /** The rows of one section, before its children. */
  method OwnFields(lines: seq<Line>, tag: string) returns (r: Option<seq<Field>>)
    ensures r.Some? <==> FieldsSound(lines) && |FieldRows(lines, tag)| <= MAX_FIELDS_PER_SECTION
    ensures r.Some? ==> r.value == FieldRows(lines, tag)
  {
    var result: seq<Field>, k := [], 0;
    assert lines[..0] == [];
    while k < |lines|
      invariant 0 <= k <= |lines| && result == FieldRows(lines[..k], tag)
      invariant FieldsSound(lines[..k]) && |result| <= MAX_FIELDS_PER_SECTION
    {
      hide ValidText;
      var line := lines[k];
      assert lines[..k + 1][..k] == lines[..k] && lines[..k + 1][k] == line;
      FieldRowsGrow(lines, k + 1, tag);
      if line.FieldRow? {
        if !ValidText(line.name, MAX_NAME) || !ValidText(line.signature, MAX_SIGNATURE) {
          return None;
        }
        result := result + [Field(line.name, tag, line.signature)];
        if |result| > MAX_FIELDS_PER_SECTION {
          return None;
        }
      }
      k := k + 1;
    }
    assert lines[..k] == lines;
    r := Some(result);
  }

  /** `fields_for`; section `i` is the one given. */
  method FieldsFor(section: Section, tag: string, ghost i: nat, ghost sections: seq<Section>, ghost parts: seq<Part>)
    returns (r: Option<seq<Field>>)
    requires Filled(sections, parts) && Rooted(parts) && i < |sections| && sections[i] == section
    ensures r.Some? <==> Collectible(parts, i)
    ensures r.Some? ==> r.value == Collected(parts, i, tag)
    decreases |sections| - i, 1, 0
  {
    FieldRowsCount(parts[i].lines, tag, "");
    var own := OwnFields(section.lines, tag);
    if own.None? {
      return None;
    }
    r := FromChildren(section, own.value, i, sections, parts);
  }

  /** The first child after part `m - 1`, and what it adds to the visited parts. */
  lemma {:induction false} NextChild(sections: seq<Section>, parts: seq<Part>, i: nat, m: nat) returns (c: nat)
    requires Filled(sections, parts) && Rooted(parts) && i < |sections| && m <= |parts|
    requires |Kids(LevelsOf(parts), sections, i, m)| < |sections[i].children|
    requires Kids(LevelsOf(parts), sections, i, m) == sections[i].children[..|Kids(LevelsOf(parts), sections, i, m)|]
    ensures m <= c < |parts| && i < c < |sections|
    ensures var t := |Kids(LevelsOf(parts), sections, i, m)|;
            && sections[c] == sections[i].children[t]
            && Kids(LevelsOf(parts), sections, i, c + 1) == sections[i].children[..t + 1]
    ensures Below(parts, i, c + 1)
         == Below(parts, i, m) + (if Bears(parts)[c] then [] else [c] + Below(parts, c, |parts|))
  {
    hide Forest, Owner, NearestBelow, Levels, LevelsOf, Bears;
    var levels := LevelsOf(parts);
    c := NextKid(levels, sections, i, m, |parts|);
    ForestQuiet(levels, sections, Bears(parts), i, m, c, |parts|);
    KidsGrow(levels, sections, i, c + 1, |parts|);
    if Bears(parts)[c] {
      SkipChild(parts, i, c);
    } else {
      EnterChild(parts, i, c);
    }
  }

  /** After the last child everything is gathered. */
  lemma {:induction false} LastChild(sections: seq<Section>, parts: seq<Part>, i: nat, m: nat, rows: seq<Field>)
    requires Filled(sections, parts) && Rooted(parts) && i < |sections| && m <= |parts|
    requires Kids(LevelsOf(parts), sections, i, m) == sections[i].children && Gathered(parts, i, m, rows)
    ensures Gather(parts, Below(parts, i, |parts|)) == rows
    ensures AllGathered(parts, i, |rows|)
  {
    ForestQuiet(LevelsOf(parts), sections, Bears(parts), i, m, |parts|, |parts|);
    hide Forest, Gather, Sound;
  }

  /** What one child answers: nothing to add when it bears endpoints, otherwise its fields. */
  ghost predicate Answer(parts: seq<Part>, c: nat, fields: Option<seq<Field>>)
    requires Rooted(parts) && c < |parts|
  {
    && (fields.Some? <==> Bears(parts)[c] || (ValidText(parts[c].slug, MAX_LABEL) && Collectible(parts, c)))
    && (fields.Some? ==> fields.value == if Bears(parts)[c] then [] else Collected(parts, c, parts[c].slug))
  }

  /** One turn of the loop over the children, for child `c`. */
  method ChildFields(child: Section, ghost i: nat, ghost c: nat, ghost sections: seq<Section>, ghost parts: seq<Part>)
    returns (r: Option<seq<Field>>)
    requires Filled(sections, parts) && Rooted(parts) && i < c < |sections| && sections[c] == child
    ensures Answer(parts, c, r)
    decreases |sections| - i, 0, 0
  {
    hide ValidText, Collectible, Collected;
    if child.endpoints != [] {
      return Some([]);
    }
    if !ValidText(child.slug, MAX_LABEL) {
      return None;
    }
    r := FieldsFor(child, child.slug, c, sections, parts);
  }

  /** `rows` is what the children among the first `m` parts hold, without a broken limit. */
  ghost predicate Gathered(parts: seq<Part>, i: nat, m: nat, rows: seq<Field>)
    requires Rooted(parts) && i < |parts|
  {
    m <= |parts| && rows == Gather(parts, Below(parts, i, m)) && Sound(parts, Below(parts, i, m))
  }

  ghost predicate AllGathered(parts: seq<Part>, i: nat, room: int)
    requires Rooted(parts) && i < |parts|
  {
    Sound(parts, Below(parts, i, |parts|)) && |Gather(parts, Below(parts, i, |parts|))| <= room
  }

  /** Adding the answer of child `c`: the new rows, or a limit broken for good. */
  lemma {:induction false} AddAnswer(parts: seq<Part>, i: nat, m: nat, c: nat, rows: seq<Field>,
                                     fields: Option<seq<Field>>, room: int)
    requires Rooted(parts) && i < |parts| && c < |parts| && Gathered(parts, i, m, rows) && Answer(parts, c, fields)
    requires Below(parts, i, c + 1)
          == Below(parts, i, m) + (if Bears(parts)[c] then [] else [c] + Below(parts, c, |parts|))
    ensures fields.Some? ==> Gathered(parts, i, c + 1, rows + fields.value)
    ensures fields.Some? && |rows| + |fields.value| > room ==> !AllGathered(parts, i, room)
    ensures fields.None? && room <= MAX_FIELDS_PER_SECTION ==> !AllGathered(parts, i, room)
  {
    var before, within := Below(parts, i, m), Below(parts, c, |parts|);
    BelowGrow(parts, i, c + 1);
    FieldRowsCount(parts[c].lines, parts[c].slug, "");
    hide Below, Gather, Sound, FieldsSound, ValidText, FieldRows;
    if Bears(parts)[c] {
      assert before + [] == before;
      assert rows + [] == rows;
    } else {
      GatherEnter(parts, before, c, within);
      SoundEnter(parts, before, c, within);
    }
  }

  /** The loop of `fields_for` over the children. */
  method FromChildren(section: Section, own: seq<Field>, ghost i: nat, ghost sections: seq<Section>,
                      ghost parts: seq<Part>)
    returns (r: Option<seq<Field>>)
    requires Filled(sections, parts) && Rooted(parts) && i < |sections| && sections[i] == section
    requires |own| <= MAX_FIELDS_PER_SECTION
    ensures r.Some? <==> AllGathered(parts, i, MAX_FIELDS_PER_SECTION - |own|)
    ensures r.Some? ==> r.value == own + Gather(parts, Below(parts, i, |parts|))
    decreases |sections| - i, 0, 1
  {
    hide Kids, Below, LevelsOf, Bears, Filled, Rooted, Gathered, Answer, Gather, Sound;
    var result, t := own, 0;
    ghost var m: nat, rows := 0, [];
    NoChildYet(sections, parts, i);
    assert own + [] == own && section.children[..0] == [];
    while t < |section.children|
      invariant 0 <= t <= |section.children| && m <= |parts| && Gathered(parts, i, m, rows)
      invariant Kids(LevelsOf(parts), sections, i, m) == section.children[..t]
      invariant result == own + rows && |result| <= MAX_FIELDS_PER_SECTION
    {
      ghost var c := NextChild(sections, parts, i, m);
      var fields := ChildFields(section.children[t], i, c, sections, parts);
      AddAnswer(parts, i, m, c, rows, fields, MAX_FIELDS_PER_SECTION - |own|);
      if fields.None? {
        return None;
      }
      AppendAssoc(own, rows, fields.value);
      result, rows := result + fields.value, rows + fields.value;
      if |result| > MAX_FIELDS_PER_SECTION {
        return None;
      }
      t, m := t + 1, c + 1;
    }
    assert section.children[..t] == section.children;
    LastChild(sections, parts, i, m, rows);
    r := Some(result);
  }

  lemma {:induction false} NoChildYet(sections: seq<Section>, parts: seq<Part>, i: nat)
    requires Filled(sections, parts) && Rooted(parts) && i < |sections|
    ensures |LevelsOf(parts)| == |sections| && Levels(LevelsOf(parts)) && i < |parts|
    ensures Gathered(parts, i, 0, []) && Kids(LevelsOf(parts), sections, i, 0) == []
  {
    assert Below(parts, i, 0) == [];
    Nothing(parts);
  }

  lemma {:induction false} Nothing(parts: seq<Part>)
    ensures Gather(parts, []) == [] && Sound(parts, [])
  {
  }
}
