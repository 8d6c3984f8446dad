/** The section tree of a documentation file, built by a heading stack
    (scripts/openbao_documentation_v2.py, Section and the first two loops of parse). */
module DocTree {
  import opened Text
  import opened Outline
  import opened DocLines

  const MAX_SECTIONS := 8192

  class Section {
    const level: nat
    const title: string
    const slug: string
    var lines: seq<Line>
    var children: seq<Section>
    var endpoints: seq<Endpoint>

    constructor (level: nat, title: string, slug: string)
      ensures this.level == level && this.title == title && this.slug == slug
      ensures lines == [] && children == [] && endpoints == []
    {
      this.level, this.title, this.slug := level, title, slug;
      lines, children, endpoints := [], [], [];
    }
  }

  function LevelsOf(parts: seq<Part>): (levels: seq<nat>)
    ensures |levels| == |parts| && forall k :: 0 <= k < |parts| ==> levels[k] == parts[k].level
    ensures Rooted(parts) ==> Levels(levels)
  {
    seq(|parts|, k requires 0 <= k < |parts| => parts[k].level)
  }

  lemma {:induction false} LevelsSnoc(parts: seq<Part>, part: Part)
    ensures LevelsOf(parts + [part]) == LevelsOf(parts) + [part.level]
  {
  }

  /** The part a section stands for. */
  function View(s: Section): Part
    reads s
  {
    Part(s.level, s.title, s.slug, s.lines)
  }

  /** The sections are the parts of the text in order, no object twice, and each holds
      exactly its children, in order. */
  ghost predicate Tree(sections: seq<Section>, parts: seq<Part>)
    reads sections
  {
    && |sections| == |parts| && Distinct(sections) && Levels(LevelsOf(parts))
    && (forall k :: 0 <= k < |sections| ==> View(sections[k]) == parts[k])
    && (forall k :: 0 <= k < |sections| ==>
          sections[k].children == Kids(LevelsOf(parts), sections, k, |sections|))
  }

  /** The stack holds the open headings, the root first and the newest section last. */
  ghost predicate Stacked(stack: seq<Section>, spine: seq<nat>, sections: seq<Section>, levels: seq<nat>) {
    && Levels(levels) && |levels| == |sections| == |levels|
    && Spine(levels, spine) && |stack| == |spine| && stack != []
    && (forall t :: 0 <= t < |stack| ==> spine[t] < |sections| && stack[t] == sections[spine[t]])
  }

  function HeadingPart(line: Line): Part
    requires line.Heading?
  {
    Part(line.level, line.title, line.slug, [])
  }

  function Extend(parts: seq<Part>, line: Line): seq<Part>
    requires parts != []
  {
    var last := |parts| - 1;
    parts[last := parts[last].(lines := parts[last].lines + [line])]
  }

  /** Closing the headings that are too deep leaves the parent of the new one on top. */
  method Unwind(stack: seq<Section>, level: Level, ghost spine: seq<nat>,
                ghost sections: seq<Section>, ghost levels: seq<nat>)
    returns (open: seq<Section>, ghost rest: seq<nat>)
    requires Stacked(stack, spine, sections, levels) && spine[|spine| - 1] == |levels| - 1
    requires forall k :: 0 <= k < |levels| ==> sections[k].level == levels[k]
    ensures Stacked(open, rest, sections, levels)
    ensures open[|open| - 1] == sections[NearestBelow(levels, |levels|, level)]
    ensures rest[|rest| - 1] == NearestBelow(levels, |levels|, level)
  {
    open, rest := stack, spine;
    while open[|open| - 1].level >= level
      invariant Stacked(open, rest, sections, levels)
      invariant NearestBelow(levels, rest[|rest| - 1] + 1, level) == NearestBelow(levels, |levels|, level)
    {
      PopSpine(levels, rest, level);
      open, rest := open[..|open| - 1], rest[..|rest| - 1];
    }
  }

  /** Hanging a new last section below the nearest earlier one of a smaller level gives the
      tree of the longer text. */
  lemma {:induction false} Hung(before: seq<Section>, kids: seq<seq<Section>>, section: Section, p: nat,
                                parts: seq<Part>, part: Part)
    requires |before| == |parts| && Levels(LevelsOf(parts)) && part.level > 0
    requires |kids| == |before| + 1 && p < |before| && p == NearestBelow(LevelsOf(parts), |parts|, part.level)
    requires forall k :: 0 <= k < |before| ==>
               kids[k] == Kids(LevelsOf(parts), before, k, |before|) + (if k == p then [section] else [])
    requires kids[|before|] == []
    ensures Levels(LevelsOf(parts + [part]))
    ensures forall k :: 0 <= k < |kids| ==>
              kids[k] == Kids(LevelsOf(parts + [part]), before + [section], k, |kids|)
  {
    var levels := LevelsOf(parts);
    LevelsSnoc(parts, part);
    hide Kids, NearestBelow, LevelsOf;
    forall k | 0 <= k < |kids| ensures kids[k] == Kids(levels + [part.level], before + [section], k, |kids|) {
      KidsStep(levels, before, k, part.level, section);
      if k == |before| {
        NoKids(levels, before, k, |levels|);
      }
    }
  }

  lemma {:induction false} NoKids<T>(levels: seq<nat>, nodes: seq<T>, i: nat, n: nat)
    requires Levels(levels) && |nodes| == |levels| && n <= |levels| && n <= i + 1
    ensures Kids(levels, nodes, i, n) == []
  {
    if n > 0 {
      NoKids(levels, nodes, i, n - 1);
    }
  }

  lemma {:induction false} Assemble(sections: seq<Section>, parts: seq<Part>, section: Section, part: Part,
                                    kids: seq<seq<Section>>)
    requires Distinct(sections) && section !in sections && |sections| == |parts| == |kids| - 1
    requires Levels(LevelsOf(parts + [part])) && View(section) == part
    requires forall k :: 0 <= k < |sections| ==> View(sections[k]) == parts[k]
    requires forall k :: 0 <= k < |kids| ==> kids[k] == (sections + [section])[k].children
    requires forall k :: 0 <= k < |kids| ==>
               kids[k] == Kids(LevelsOf(parts + [part]), sections + [section], k, |kids|)
    ensures Tree(sections + [section], parts + [part])
  {
    hide Kids, LevelsOf, Levels;
    var all := sections + [section];
    forall k | 0 <= k < |all| ensures View(all[k]) == (parts + [part])[k] {}
  }

  /** A new section hangs below `parent`, the nearest earlier one of a smaller level. */
  method Attach(parent: Section, ghost p: nat, line: Line, ghost sections: seq<Section>, ghost parts: seq<Part>)
    returns (section: Section)
    requires line.Heading? && Tree(sections, parts) && |parts| > 0
    requires p == NearestBelow(LevelsOf(parts), |parts|, line.level) && sections[p] == parent
    modifies parent`children
    ensures fresh(section) && Tree(sections + [section], parts + [HeadingPart(line)])
  {
    hide Kids, NearestBelow, LevelsOf, Levels;
    section := new Section(line.level, line.title, line.slug);
    parent.children := parent.children + [section];
    ghost var kids := seq(|sections| + 1, k requires 0 <= k <= |sections| reads sections, section =>
                            (sections + [section])[k].children);
    assert forall k :: 0 <= k < |sections| ==>
             kids[k] == Kids(LevelsOf(parts), sections, k, |sections|) + (if k == p then [section] else []);
    Hung(sections, kids, section, p, parts, HeadingPart(line));
    Assemble(sections, parts, section, HeadingPart(line), kids);
  }

  // ----- The loop over the lines

  /** The tree and the stack after the lines of `text`, fences removed. */
  ghost predicate Built(sections: seq<Section>, stack: seq<Section>, spine: seq<nat>, text: seq<Line>)
    reads sections
  {
    && Tree(sections, Parts(text)) && Stacked(stack, spine, sections, LevelsOf(Parts(text)))
    && spine[|spine| - 1] == |sections| - 1
  }

  method AddSection(sections: seq<Section>, stack: seq<Section>, line: Line,
                    ghost spine: seq<nat>, ghost text: seq<Line>)
    returns (section: Section, open: seq<Section>, ghost rest: seq<nat>)
    requires line.Heading? && Built(sections, stack, spine, text)
    modifies sections
    ensures fresh(section) && Built(sections + [section], open, rest, text + [line])
    ensures |sections| + 1 == |Parts(text + [line])|
  {
    hide Kids, NearestBelow, LevelsOf, Levels, Spine, Parts, Extend, Distinct;
    PartsSnoc(text, line);
    ghost var levels := LevelsOf(Parts(text));
    LevelsSnoc(Parts(text), HeadingPart(line));
    open, rest := Unwind(stack, line.level, spine, sections, levels);
    section := Attach(open[|open| - 1], rest[|rest| - 1], line, sections, Parts(text));
    hide Tree;
    PushSpine(levels, rest, line.level);
    open, rest := open + [section], rest + [|levels|];
  }

  method AddLine(section: Section, line: Line, ghost sections: seq<Section>, ghost stack: seq<Section>,
                 ghost spine: seq<nat>, ghost text: seq<Line>)
    requires !line.Heading? && Built(sections, stack, spine, text) && section == stack[|stack| - 1]
    modifies section`lines
    ensures Built(sections, stack, spine, text + [line])
  {
    PartsSnoc(text, line);
    ExtendSame(Parts(text), line);
    Top(sections, stack, spine, text);
    hide Levels, LevelsOf, Kids, Spine, Parts, Extend, Stacked;
    Lengthen(section, line, sections, Parts(text));
  }

  method Lengthen(section: Section, line: Line, ghost sections: seq<Section>, ghost parts: seq<Part>)
    requires sections != [] && Tree(sections, parts) && section == sections[|sections| - 1]
    modifies section`lines
    ensures Tree(sections, Extend(parts, line))
  {
    ExtendSame(parts, line);
    hide Levels, LevelsOf, Kids, Extend;
    ghost var all := Extend(parts, line);
    section.lines := section.lines + [line];
    forall k | 0 <= k < |sections| ensures View(sections[k]) == all[k] {
      if k < |sections| - 1 {
        assert sections[k] != section;
      }
    }
  }

  lemma {:induction false} ExtendSame(parts: seq<Part>, line: Line)
    requires parts != []
    ensures var all, last := Extend(parts, line), |parts| - 1;
            && LevelsOf(all) == LevelsOf(parts) && |all| == |parts|
            && all[last] == parts[last].(lines := parts[last].lines + [line])
            && forall k :: 0 <= k < last ==> all[k] == parts[k]
  {
  }

  /** The limits met while the tree is built, stated on the text as a whole. */
  ghost predicate Buildable(lines: seq<Line>) {
    FenceAfter(lines).None? && TitlesOk(Strip(lines)) && |Parts(Strip(lines))| <= MAX_SECTIONS
  }

  function Kept(fence: Option<Opened>, line: Line): seq<Line> {
    if fence.None? && !line.Fence? then [line] else []
  }

  lemma {:induction false} StripSnoc(lines: seq<Line>, k: nat)
    requires k < |lines|
    ensures lines[..k + 1][..k] == lines[..k] && lines[..k + 1][k] == lines[k]
    ensures FenceAfter(lines[..k + 1]) == FenceStep(FenceAfter(lines[..k]), lines[k])
    ensures Strip(lines[..k + 1]) == Strip(lines[..k]) + Kept(FenceAfter(lines[..k]), lines[k])
  {
    assert lines[..k + 1][..k] == lines[..k];
  }

  lemma {:induction false} PartsSnoc(lines: seq<Line>, line: Line)
    ensures Parts(lines + [line])
         == if line.Heading? then Parts(lines) + [HeadingPart(line)]
            else Extend(Parts(lines), line)
  {
    assert (lines + [line])[..|lines|] == lines;
  }

  /** What a prefix of the text breaks, the text breaks. */
  lemma {:induction false} PrefixLimits(lines: seq<Line>, k: nat)
    requires k <= |lines|
    ensures TitlesOk(Strip(lines)) ==> TitlesOk(Strip(lines[..k]))
    ensures |Parts(Strip(lines[..k]))| <= |Parts(Strip(lines))|
  {
    StripPrefix(lines, k);
    var front := Strip(lines[..k]);
    assert front == Strip(lines)[..|front|];
    PartsGrow(Strip(lines), |front|);
  }

  lemma {:induction false} TitlesSnoc(lines: seq<Line>, line: Line)
    ensures TitlesOk(lines + [line]) <==> TitlesOk(lines) && (line.Heading? ==> ValidText(line.title, MAX_TITLE))
  {
    assert forall other :: other in lines + [line] <==> other in lines || other == line;
    hide ValidText;
  }

  method Start() returns (root: Section)
    ensures fresh(root) && Built([root], [root], [0], [])
  {
    root := new Section(0, "document", "document");
    assert LevelsOf(Parts([])) == [0];
    NoKids([0], [root], 0, 1);
  }

  /** One line; `ok` is false at a heading that breaks a limit. */
  method Feed(sections: seq<Section>, stack: seq<Section>, fence: Option<Opened>, line: Line,
              ghost spine: seq<nat>, ghost text: seq<Line>)
    returns (ok: bool, all: seq<Section>, open: seq<Section>, next: Option<Opened>, ghost rest: seq<nat>)
    requires Built(sections, stack, spine, text)
    modifies ToSet(sections)
    ensures fresh(ToSet(all) - ToSet(sections))
    ensures next == FenceStep(fence, line)
    ensures Built(all, open, rest, text + Kept(fence, line))
    ensures var titled := fence.None? && line.Heading?;
            (ok <==> (titled ==> ValidText(line.title, MAX_TITLE) && |all| <= MAX_SECTIONS))
            && (!titled ==> |all| == |sections|)
  {
    hide ValidText, Built, Tree;
    assert text + [] == text;
    ok, all, open, next, rest := true, sections, stack, fence, spine;
    if fence.Some? {
      if line.Fence? && line.mark == fence.value.mark && line.length >= fence.value.length && line.bare {
        next := None;
      }
    } else if line.Fence? {
      next := Some(Opened(line.mark, line.length));
    } else if line.Heading? {
      Top(sections, stack, spine, text);
      var section;
      section, open, rest := AddSection(sections, stack, line, spine, text);
      all := sections + [section];
      ok := ValidText(line.title, MAX_TITLE) && |all| <= MAX_SECTIONS;
    } else {
      Top(sections, stack, spine, text);
      AddLine(stack[|stack| - 1], line, sections, stack, spine, text);
    }
  }

  /** The first loops of `parse`: the tree of the text outside its fences. */
  method BuildSections(lines: seq<Line>) returns (r: Option<seq<Section>>)
    ensures r.Some? <==> Buildable(lines)
    ensures r.Some? ==> fresh(ToSet(r.value)) && Tree(r.value, Parts(Strip(lines)))
  {
    hide Strip, FenceAfter, FenceStep, Parts, TitlesOk, ValidText, Built, Tree;
    StripNone(lines);
    var root := Start();
    var sections, stack, fence: Option<Opened>, k := [root], [root], None, 0;
    ghost var spine: seq<nat>, text := [0], [];
    while k < |lines|
      invariant 0 <= k <= |lines| && fresh(ToSet(sections))
      invariant fence == FenceAfter(lines[..k]) && text == Strip(lines[..k]) && TitlesOk(text)
      invariant |sections| <= MAX_SECTIONS && Built(sections, stack, spine, text)
    {
      StripSnoc(lines, k);
      PrefixLimits(lines, k + 1);
      TitlesSnoc(text, lines[k]);
      var ok;
      ok, sections, stack, fence, spine := Feed(sections, stack, fence, lines[k], spine, text);
      assert text + [] == text;
      text := Strip(lines[..k + 1]);
      Top(sections, stack, spine, text);
      if !ok {
        return None;
      }
      k := k + 1;
    }
    assert lines[..k] == lines;
    Top(sections, stack, spine, text);
    r := if fence.Some? then None else Some(sections);
  }

  lemma {:induction false} StripNone(lines: seq<Line>)
    ensures FenceAfter(lines[..0]).None? && Strip(lines[..0]) == [] && TitlesOk([])
  {
  }

  lemma {:induction false} Top(sections: seq<Section>, stack: seq<Section>, spine: seq<nat>, text: seq<Line>)
    requires Built(sections, stack, spine, text)
    ensures stack != [] && sections != [] && stack[|stack| - 1] == sections[|sections| - 1]
    ensures |sections| == |Parts(text)| && Tree(sections, Parts(text))
  {
  }
}
