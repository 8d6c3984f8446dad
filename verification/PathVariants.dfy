/** Expanding the optional segments of a documented path
    (scripts/generate_openbao_contract_matrix.py, path_variants). */
module PathVariants {
  import opened Text
  import opened Sorting

  const MAX_NAME := 128

  predicate NameChar(c: char) {
    'A' <= c <= 'Z' || 'a' <= c <= 'z' || '0' <= c <= '9' || c == '_' || c == '-'
  }

  /** `[A-Za-z0-9_-]{1,128}` */
  predicate IsName(name: string) {
    1 <= |name| <= MAX_NAME && forall i :: 0 <= i < |name| ==> NameChar(name[i])
  }

  /** The text of an optional segment. */
  function Group(name: string): string {
    "(/:" + name + ")"
  }

  function Segment(name: string): string {
    "/:" + name
  }

  datatype Match = Match(before: string, name: string, after: string)

  function NameRun(s: string): (n: nat)
    ensures n <= |s| && (forall i :: 0 <= i < n ==> NameChar(s[i])) && (n < |s| ==> !NameChar(s[n]))
  {
    if s == [] || !NameChar(s[0]) then 0 else NameRun(s[1..]) + 1
  }

  /** The optional segment a text begins with, and what follows it. */
  function HeadGroup(s: string): Option<(string, string)> {
    if |s| <= 3 || s[0] != '(' || s[1] != '/' || s[2] != ':' then None
    else
      var n := NameRun(s[3..]);
      if 1 <= n <= MAX_NAME && 3 + n < |s| && s[3 + n] == ')' then Some((s[3..3 + n], s[4 + n..])) else None
  }

  /** `OPTIONAL_SEGMENT.search`: the leftmost optional segment. */
  function Search(s: string): Option<Match> {
    var head := HeadGroup(s);
    if head.Some? then Some(Match("", head.value.0, head.value.1))
    else if s == [] then None
    else
      var rest := Search(s[1..]);
      if rest.None? then None else Some(rest.value.(before := [s[0]] + rest.value.before))
  }

  function Opens(s: string): nat {
    if s == [] then 0 else (if s[0] == '(' then 1 else 0) + Opens(s[1..])
  }

  lemma {:induction false} OpensAppend(a: string, b: string)
    ensures Opens(a + b) == Opens(a) + Opens(b)
  {
    if a == [] {
      assert a + b == b;
    } else {
      OpensAppend(a[1..], b);
      AppendHead(a, b);
    }
  }

  lemma {:induction false} OpensFree(s: string)
    requires '(' !in s
    ensures Opens(s) == 0
  {
    if s != [] {
      OpensFree(s[1..]);
    }
  }

  lemma {:induction false} NameFree(name: string)
    requires IsName(name)
    ensures '(' !in name && ')' !in name
    ensures forall i :: 0 < i < |Group(name)| ==> Group(name)[i] != '('
  {
  }

  lemma {:induction false} HeadGroupText(s: string)
    requires HeadGroup(s).Some?
    ensures var (name, rest) := HeadGroup(s).value; IsName(name) && s == Group(name) + rest
  {
    var n := NameRun(s[3..]);
    assert s == [s[0], s[1], s[2]] + s[3..3 + n] + [s[3 + n]] + s[4 + n..];
  }

  lemma {:induction false} HeadGroupFound(name: string, rest: string)
    requires IsName(name)
    ensures HeadGroup(Group(name) + rest) == Some((name, rest))
  {
    var s := Group(name) + rest;
    assert s[3..] == name + [')'] + rest;
    var n := NameRun(s[3..]);
    assert s[3..][|name|] == ')';
    assert forall i :: 0 <= i < |name| ==> s[3..][i] == name[i];
    assert n == |name|;
    assert s[3..3 + n] == name && s[4 + n..] == rest;
  }

  lemma {:induction false} SearchText(s: string)
    requires Search(s).Some?
    ensures var m := Search(s).value; IsName(m.name) && s == m.before + Group(m.name) + m.after
  {
    if HeadGroup(s).Some? {
      HeadGroupText(s);
    } else {
      SearchText(s[1..]);
      var m := Search(s[1..]).value;
      AppendAssoc([s[0]], m.before + Group(m.name), m.after);
      AppendAssoc([s[0]], m.before, Group(m.name));
      assert s == [s[0]] + s[1..];
    }
  }

  lemma {:induction false} SearchOpens(s: string)
    requires Search(s).Some?
    ensures var m := Search(s).value;
            && Opens(s) >= 1
            && Opens(m.before + m.after) == Opens(s) - 1
            && Opens(m.before + Segment(m.name) + m.after) == Opens(s) - 1
  {
    var m := Search(s).value;
    SearchText(s);
    NameFree(m.name);
    assert '(' !in Segment(m.name);
    OpensFree(Segment(m.name));
    assert Group(m.name) == "(" + (Segment(m.name) + ")");
    OpensAppend("(", Segment(m.name) + ")");
    OpensAppend(Segment(m.name), ")");
    OpensAppend(m.before, Group(m.name));
    OpensAppend(m.before + Group(m.name), m.after);
    OpensAppend(m.before, m.after);
    OpensAppend(m.before, Segment(m.name));
    OpensAppend(m.before + Segment(m.name), m.after);
  }

  /** The texts reached by dropping or keeping the leftmost segment until none is left. */
  function Normal(s: string): seq<string>
    decreases Opens(s)
  {
    var found := Search(s);
    if found.None? then [s]
    else
      var m := found.value;
      SearchOpens(s);
      Normal(m.before + m.after) + Normal(m.before + Segment(m.name) + m.after)
  }

  /** No optional segment is left. */
  lemma {:induction false} NormalHasNoGroup(s: string, x: string)
    requires x in Normal(s)
    ensures Search(x).None?
    decreases Opens(s)
  {
    var found := Search(s);
    if found.Some? {
      SearchOpens(s);
      var m := found.value;
      if x in Normal(m.before + m.after) {
        NormalHasNoGroup(m.before + m.after, x);
      } else {
        NormalHasNoGroup(m.before + Segment(m.name) + m.after, x);
      }
    }
  }

  // ----- The set loop

  /** `path.split("?", 1)[0]` */
  function Base(path: string): string {
    Split(path, '?')[0]
  }

  function VariantList(path: string): seq<string> {
    SortedSet(Normal(Base(path)), StringLess)
  }

  /** Some text of the set has `x` among its normal forms. */
  ghost predicate Reaches(texts: set<string>, x: string) {
    exists s :: s in texts && x in Normal(s)
  }

  ghost predicate SameForms(a: set<string>, b: set<string>) {
    forall x :: Reaches(a, x) <==> Reaches(b, x)
  }

  lemma {:induction false} ExpandOne(texts: set<string>, s: string, left: string, right: string)
    requires s in texts && Search(s).Some?
    requires left == Search(s).value.before + Search(s).value.after
    requires right == Search(s).value.before + Segment(Search(s).value.name) + Search(s).value.after
    ensures SameForms(texts - {s} + {left} + {right}, texts)
  {
    var after := texts - {s} + {left} + {right};
    SearchOpens(s);
    assert Normal(s) == Normal(left) + Normal(right);
    hide Normal, Search, Segment;
    forall x ensures Reaches(after, x) <==> Reaches(texts, x) {
      if Reaches(texts, x) {
        var t :| t in texts && x in Normal(t);
        assert t == s ==> x in Normal(left) || x in Normal(right);
        assert t != s ==> t in after;
      }
      if Reaches(after, x) {
        var t :| t in after && x in Normal(t);
        assert t in texts || t == left || t == right;
      }
    }
  }

  lemma {:induction false} NothingToExpand(texts: set<string>)
    requires forall s :: s in texts ==> Search(s).None?
    ensures forall x :: Reaches(texts, x) <==> x in texts
  {
    forall x ensures Reaches(texts, x) <==> x in texts {
      if x in texts {
        assert x in Normal(x);
      }
    }
  }

  /** Every optional segment among `texts` has at most `bound` opening parentheses around it. */
  ghost predicate Bounded(texts: set<string>, bound: nat) {
    forall s :: s in texts && Search(s).Some? ==> Opens(s) <= bound
  }

  /** One pass over a copy of the set, in whatever order the set is enumerated. Every text
      that still has an optional segment then has fewer parentheses than the bound. */
  method Round(before: set<string>, ghost bound: nat) returns (changed: bool, variants: set<string>)
    requires Bounded(before, bound)
    ensures SameForms(variants, before)
    ensures changed ==> bound > 0 && Bounded(variants, bound - 1)
    ensures !changed ==> variants == before && forall s :: s in before ==> Search(s).None?
  {
    changed, variants := false, before;
    var todo := before;
    while todo != {}
      invariant todo <= before && todo <= variants
      invariant SameForms(variants, before)
      invariant Bounded(variants, bound) && (changed ==> bound > 0)
      invariant forall s :: s in variants && s !in todo && Search(s).Some? ==> Opens(s) < bound
      invariant !changed ==> variants == before && forall s :: s in before && s !in todo ==> Search(s).None?
      decreases todo
    {
      hide Normal, Search, Segment, Opens, Reaches;
      var s :| s in todo;
      todo := todo - {s};
      var found := Search(s);
      if found.Some? {
        var m := found.value;
        var left, right := m.before + m.after, m.before + Segment(m.name) + m.after;
        SearchOpens(s);
        ExpandOne(variants, s, left, right);
        variants := variants - {s} + {left} + {right};
        changed := true;
      }
    }
  }

  /** `path_variants`: it ends, and returns the sorted normal forms. */
  method Variants(path: string) returns (r: seq<string>)
    ensures r == VariantList(path)
  {
    var base := Split(path, '?')[0];
    var variants := {base};
    ghost var bound := Opens(base);
    OneText(base);
    var changed := true;
    while changed
      invariant Bounded(variants, bound)
      invariant forall x :: Reaches(variants, x) <==> x in Normal(base)
      invariant !changed ==> forall s :: s in variants ==> Search(s).None?
      decreases bound, changed
    {
      hide Normal, Search, Opens, Reaches, Bounded;
      changed, variants := Round(variants, bound);
      if changed {
        bound := bound - 1;
      }
    }
    NothingToExpand(variants);
    r := SortTexts(variants, Normal(base));
  }

  lemma {:induction false} OneText(s: string)
    ensures Bounded({s}, Opens(s))
    ensures forall x :: Reaches({s}, x) <==> x in Normal(s)
  {
    forall x | x in Normal(s) ensures Reaches({s}, x) {
      assert s in {s};
    }
  }

  /** `sorted` of a set whose elements are those of `list`. */
  method SortTexts(texts: set<string>, ghost list: seq<string>) returns (r: seq<string>)
    requires forall x :: x in texts <==> x in list
    ensures r == SortedSet(list, StringLess)
  {
    r := [];
    var left := texts;
    StringOrder();
    hide StringLess;
    while left != {}
      invariant left <= texts
      invariant StrictlySorted(r, StringLess) && ToSet(r) == texts - left
      decreases left
    {
      var x :| x in left;
      InsertSorted(x, r, StringLess);
      r, left := Insert(x, r, StringLess), left - {x};
    }
    SortedSetSorted(list, StringLess);
    assert ToSet(list) == texts;
    SortedUnique(r, SortedSet(list, StringLess), StringLess);
  }

  // ----- Keep or drop

  /** A literal text after an optional segment. */
  datatype Piece = Piece(name: string, text: string)

  function Render(start: string, pieces: seq<Piece>): string
    decreases |pieces|
  {
    if pieces == [] then start
    else start + Group(pieces[0].name) + Render(pieces[0].text, pieces[1..])
  }

  /** Every way to keep or drop each segment. */
  function Choices(start: string, pieces: seq<Piece>): seq<string>
    decreases |pieces|
  {
    if pieces == [] then [start]
    else
      Choices(start + pieces[0].text, pieces[1..])
        + Choices(start + Segment(pieces[0].name) + pieces[0].text, pieces[1..])
  }

  ghost predicate Names(pieces: seq<Piece>) {
    forall i :: 0 <= i < |pieces| ==> IsName(pieces[i].name)
  }

  /** A segment in a prefix is a segment of the whole. */
  lemma {:induction false} SearchPrefix(a: string, b: string)
    requires Search(a).Some?
    ensures Search(a + b).Some?
  {
    if HeadGroup(a).Some? {
      HeadGroupText(a);
      var (name, rest) := HeadGroup(a).value;
      AppendAssoc(Group(name), rest, b);
      HeadGroupFound(name, rest + b);
    } else if HeadGroup(a + b).None? {
      SearchPrefix(a[1..], b);
      AppendHead(a, b);
    }
  }

  /** A segment that starts inside `a` cannot reach a parenthesis that opens after it, so
      it already is a segment of `a`. */
  lemma {:induction false} NoStraddle(a: string, name: string, b: string)
    requires a != []
    ensures HeadGroup(a + Group(name) + b).Some? ==> HeadGroup(a).Some?
  {
    var s := a + Group(name) + b;
    if HeadGroup(s).Some? {
      var (found, rest) := HeadGroup(s).value;
      HeadGroupText(s);
      NameFree(found);
      var n := |Group(found)|;
      assert s[|a|] == '(';
      assert n <= |a|;
      assert a[..n] == s[..n] == Group(found);
      HeadGroupFound(found, a[n..]);
    }
  }

  /** After a text without optional segments, the next segment is found first. */
  lemma {:induction false} SearchAfter(a: string, name: string, b: string)
    requires Search(a).None? && IsName(name)
    ensures Search(a + Group(name) + b) == Some(Match(a, name, b))
  {
    if a == [] {
      assert a + Group(name) + b == Group(name) + b;
      HeadGroupFound(name, b);
    } else {
      NoStraddle(a, name, b);
      SearchAfter(a[1..], name, b);
      AppendHead(a, Group(name));
      AppendHead(a + Group(name), b);
      assert [a[0]] + a[1..] == a;
    }
  }

  /** Every choice begins with the text before the first segment. */
  lemma {:induction false} ChoicePrefix(start: string, pieces: seq<Piece>, x: string)
    requires x in Choices(start, pieces)
    ensures start <= x
    decreases |pieces|
  {
    if pieces != [] {
      var text, rest := pieces[0].text, pieces[1..];
      if x in Choices(start + text, rest) {
        ChoicePrefix(start + text, rest, x);
      } else {
        ChoicePrefix(start + Segment(pieces[0].name) + text, rest, x);
      }
    }
  }

  lemma {:induction false} ChoicesExist(start: string, pieces: seq<Piece>)
    ensures Choices(start, pieces) != []
    decreases |pieces|
  {
    if pieces != [] {
      ChoicesExist(start + pieces[0].text, pieces[1..]);
    }
  }

  lemma {:induction false} RenderShift(prefix: string, start: string, pieces: seq<Piece>)
    ensures prefix + Render(start, pieces) == Render(prefix + start, pieces)
  {
    if pieces != [] {
      var g, rest := Group(pieces[0].name), Render(pieces[0].text, pieces[1..]);
      AppendAssoc(prefix, start + g, rest);
      AppendAssoc(prefix, start, g);
    }
  }

  lemma {:induction false} NormalIsChoices(start: string, pieces: seq<Piece>)
    requires Names(pieces) && forall x :: x in Choices(start, pieces) ==> Search(x).None?
    ensures Normal(Render(start, pieces)) == Choices(start, pieces)
    decreases |pieces|
  {
    ChoicesExist(start, pieces);
    var x := Choices(start, pieces)[0];
    ChoicePrefix(start, pieces, x);
    assert start + x[|start|..] == x;
    if Search(start).Some? {
      SearchPrefix(start, x[|start|..]);
    }
    if pieces != [] {
      var name, text, rest := pieces[0].name, pieces[0].text, pieces[1..];
      var tail := Render(text, rest);
      SearchAfter(start, name, tail);
      RenderShift(start, text, rest);
      RenderShift(start + Segment(name), text, rest);
      NormalIsChoices(start + text, rest);
      NormalIsChoices(start + Segment(name) + text, rest);
    }
  }

  /** The variants are exactly the keep-or-drop choices if and only if no choice brings a
      new optional segment about. */
  lemma {:induction false} KeepOrDropIff(start: string, pieces: seq<Piece>)
    requires Names(pieces)
    ensures ToSet(Normal(Render(start, pieces))) == ToSet(Choices(start, pieces)) <==>
              forall x :: x in Choices(start, pieces) ==> Search(x).None?
  {
    if forall x :: x in Choices(start, pieces) ==> Search(x).None? {
      NormalIsChoices(start, pieces);
    }
    if ToSet(Normal(Render(start, pieces))) == ToSet(Choices(start, pieces)) {
      forall x | x in Choices(start, pieces) ensures Search(x).None? {
        assert x in ToSet(Choices(start, pieces));
        NormalHasNoGroup(Render(start, pieces), x);
      }
    }
  }

  lemma {:induction false} NoOpenNoGroup(s: string)
    requires '(' !in s
    ensures Search(s).None?
  {
    if s != [] {
      NoOpenNoGroup(s[1..]);
    }
  }

  lemma {:induction false} ChoicesFree(start: string, pieces: seq<Piece>, x: string)
    requires Names(pieces) && x in Choices(start, pieces)
    requires '(' !in start && forall i :: 0 <= i < |pieces| ==> '(' !in pieces[i].text
    ensures '(' !in x
    decreases |pieces|
  {
    if pieces != [] {
      var text, rest := pieces[0].text, pieces[1..];
      NameFree(pieces[0].name);
      if x in Choices(start + text, rest) {
        ChoicesFree(start + text, rest, x);
      } else {
        ChoicesFree(start + Segment(pieces[0].name) + text, rest, x);
      }
    }
  }

  /** In particular when no parenthesis opens outside the optional segments. */
  lemma {:induction false} KeepOrDrop(start: string, pieces: seq<Piece>)
    requires Names(pieces)
    requires '(' !in start && forall i :: 0 <= i < |pieces| ==> '(' !in pieces[i].text
    ensures Normal(Render(start, pieces)) == Choices(start, pieces)
  {
    forall x | x in Choices(start, pieces) ensures Search(x).None? {
      ChoicesFree(start, pieces, x);
      NoOpenNoGroup(x);
    }
    NormalIsChoices(start, pieces);
  }

  /** A family of paths where the choices are not the variants: in "((/:b)/:a)", dropping
      the segment of `b` makes `a` an optional segment. */
  lemma {:induction false} NestedCounterexample(a: string, b: string)
    requires IsName(a) && IsName(b)
    ensures var pieces := [Piece(b, "/:" + a + ")")];
            ToSet(Normal(Render("(", pieces))) != ToSet(Choices("(", pieces))
  {
    var text := "/:" + a + ")";
    var pieces := [Piece(b, text)];
    assert "(" + text == Group(a) + "";
    assert Choices("(" + text, pieces[1..]) == ["(" + text];
    assert Choices("(", pieces)[0] == "(" + text;
    HeadGroupFound(a, "");
    hide Choices, Normal, Search, Render;
    KeepOrDropIff("(", pieces);
    SearchAtHead("(" + text);
  }

  lemma {:induction false} SearchAtHead(s: string)
    requires HeadGroup(s).Some?
    ensures Search(s).Some?
  {
  }
}
