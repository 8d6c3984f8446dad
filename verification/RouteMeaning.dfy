/** What path expansion and route selection answer, in terms of the texts themselves
    (scripts/generate_openbao_contract_matrix.py, path_variants, path_segments, path_score,
    method_operation and the selection in openapi_contract). */
module RouteMeaning {
  import opened Text
  import opened Sorting
  import opened PathVariants
  import opened RouteMatch

  // ----- Optional segments

  predicate Word(name: string) {
    && 1 <= |name| <= 128
    && forall i :: 0 <= i < |name| ==>
         'A' <= name[i] <= 'Z' || 'a' <= name[i] <= 'z' || '0' <= name[i] <= '9' || name[i] == '_' || name[i] == '-'
  }

  /** An optional segment stands at position `i`. */
  ghost predicate OptionalAt(s: string, i: nat) {
    exists name, after :: OptionalIs(s, i, name, after)
  }

  ghost predicate OptionalIs(s: string, i: nat, name: string, after: string) {
    i <= |s| && Word(name) && s[i..] == "(/:" + name + ")" + after
  }

  lemma {:induction false} WordIs(name: string)
    ensures Word(name) <==> IsName(name)
  {
  }

  lemma {:induction false} GroupText(name: string, after: string)
    ensures Group(name) + after == "(/:" + name + ")" + after
  {
  }

  lemma {:induction false} HeadIs(s: string)
    ensures HeadGroup(s).Some? <==> OptionalAt(s, 0)
    ensures HeadGroup(s).Some? ==> OptionalIs(s, 0, HeadGroup(s).value.0, HeadGroup(s).value.1)
  {
    assert s[0..] == s;
    if HeadGroup(s).Some? {
      HeadGroupText(s);
      WordIs(HeadGroup(s).value.0);
      GroupText(HeadGroup(s).value.0, HeadGroup(s).value.1);
      hide HeadGroup, Word, IsName;
      assert OptionalIs(s, 0, HeadGroup(s).value.0, HeadGroup(s).value.1);
    }
    if OptionalAt(s, 0) {
      var name, after :| OptionalIs(s, 0, name, after);
      WordIs(name);
      GroupText(name, after);
      HeadGroupFound(name, after);
    }
  }

  /** The optional segment at `i` is the leftmost one. */
  ghost predicate FirstAt(s: string, i: nat, name: string, after: string) {
    OptionalIs(s, i, name, after) && forall j: nat :: j < i ==> !OptionalAt(s, j)
  }

  ghost predicate NoOptional(s: string) {
    forall j: nat :: !OptionalAt(s, j)
  }

  /** The search finds the leftmost optional segment, or none when there is none. */
  lemma {:induction false} SearchIs(s: string)
    ensures Search(s).None? <==> NoOptional(s)
    ensures Search(s).Some? ==>
              var m := Search(s).value;
              FirstAt(s, |m.before|, m.name, m.after) && s[..|m.before|] == m.before
  {
    HeadIs(s);
    hide HeadGroup, OptionalIs, OptionalAt;
    if HeadGroup(s).Some? {
      assert s[..0] == "";
    } else if s == [] {
      forall j: nat ensures !OptionalAt(s, j) {
        NotBeyond(s, j);
      }
    } else {
      SearchIs(s[1..]);
      if Search(s[1..]).Some? {
        SearchSome(s);
        FirstOptional(s, Search(s).value);
      } else {
        forall j: nat ensures !OptionalAt(s, j) {
          NotBeyond(s, j);
          if 0 < j <= |s| {
            var k: nat := j - 1;
            Shifted(s, k);
          }
        }
      }
    }
  }

  lemma {:induction false} SearchSome(s: string)
    requires HeadGroup(s).None? && !OptionalAt(s, 0) && s != [] && Search(s[1..]).Some?
    requires var m := Search(s[1..]).value;
             FirstAt(s[1..], |m.before|, m.name, m.after) && s[1..][..|m.before|] == m.before
    ensures var m := Search(s[1..]).value;
            && Search(s) == Some(Match([s[0]] + m.before, m.name, m.after))
            && FirstAt(s, |m.before| + 1, m.name, m.after) && s[..|m.before| + 1] == [s[0]] + m.before
  {
    var m := Search(s[1..]).value;
    var k := |m.before|;
    SearchShift(s, m);
    hide HeadGroup, OptionalIs, OptionalAt;
    forall j: nat | j < k + 1 ensures !OptionalAt(s, j) {
      NotBeyond(s, j);
      if 0 < j <= |s| {
        var l: nat := j - 1;
        Shifted(s, l);
      }
    }
  }

  lemma {:induction false} FirstOptional(s: string, m: Match)
    requires FirstAt(s, |m.before|, m.name, m.after)
    ensures !NoOptional(s)
  {
    assert OptionalAt(s, |m.before|);
  }

  lemma {:induction false} NotBeyond(s: string, j: nat)
    ensures j >= |s| ==> !OptionalAt(s, j)
  {
  }

  lemma {:induction false} Shifted(s: string, k: nat)
    requires k < |s|
    ensures s[k + 1..] == s[1..][k..]
    ensures OptionalAt(s, k + 1) <==> OptionalAt(s[1..], k)
  {
    hide Word;
    var next: nat := k + 1;
    if name, after :| OptionalIs(s, next, name, after) {
      assert OptionalIs(s[1..], k, name, after);
    }
    if name, after :| OptionalIs(s[1..], k, name, after) {
      assert OptionalIs(s, next, name, after);
    }
  }

  lemma {:induction false} SearchShift(s: string, m: Match)
    requires s != [] && OptionalIs(s[1..], |m.before|, m.name, m.after) && s[1..][..|m.before|] == m.before
    ensures OptionalIs(s, |m.before| + 1, m.name, m.after) && s[..|m.before| + 1] == [s[0]] + m.before
  {
    assert |m.before| <= |s[1..]|;
    assert s[|m.before| + 1..] == s[1..][|m.before|..];
    hide Word;
  }

  /** One way of keeping or dropping the leftmost optional segment, again and again, until
      none is left. */
  ghost predicate Rewrites(s: string, keeps: seq<bool>, x: string)
    decreases |keeps|
  {
    if keeps == [] then x == s && NoOptional(s)
    else
      exists i: nat, name, after ::
        && i <= |s| && FirstAt(s, i, name, after)
        && Rewrites(s[..i] + (if keeps[0] then "/:" + name else "") + after, keeps[1..], x)
  }

  /** Some way of keeping and dropping leads from `s` to `x`. */
  ghost predicate WayTo(s: string, x: string) {
    exists keeps :: Rewrites(s, keeps, x)
  }

  lemma {:induction false} FirstIsSearch(s: string, i: nat, name: string, after: string)
    requires FirstAt(s, i, name, after)
    ensures i <= |s| && Search(s) == Some(Match(s[..i], name, after))
  {
    SearchIs(s);
    assert OptionalAt(s, i);
    var m := Search(s).value;
    assert OptionalAt(s, |m.before|);
    assert i == |m.before|;
    OneName(s, i, name, after, m.name, m.after);
  }

  /** A segment has one name: it ends at its first closing parenthesis. */
  lemma {:induction false} OneName(s: string, i: nat, name: string, after: string, other: string, rest: string)
    requires OptionalIs(s, i, name, after) && OptionalIs(s, i, other, rest)
    ensures name == other && after == rest
  {
    WordIs(name);
    WordIs(other);
    GroupText(name, after);
    GroupText(other, rest);
    HeadGroupFound(name, after);
    HeadGroupFound(other, rest);
    hide HeadGroup, IsName;
  }

  /** The variants are exactly the results of all the ways. */
  lemma {:induction false} NormalIs(s: string, x: string)
    ensures x in Normal(s) <==> WayTo(s, x)
    decreases Opens(s)
  {
    SearchIs(s);
    if Search(s).None? {
      hide OptionalAt, Search, NoOptional;
      assert Rewrites(s, [], s);
      forall keeps | Rewrites(s, keeps, x) ensures x == s {
        if keeps != [] {
          NoRewrite(s, keeps, x);
        }
      }
    } else {
      SearchOpens(s);
      var m := Search(s).value;
      var left, right := m.before + m.after, m.before + "/:" + m.name + m.after;
      assert right == m.before + Segment(m.name) + m.after;
      NormalIs(left, x);
      NormalIs(right, x);
      NormalStep(s, m, x);
    }
  }

  lemma {:induction false} NoRewrite(s: string, keeps: seq<bool>, x: string)
    requires keeps != [] && NoOptional(s)
    ensures !Rewrites(s, keeps, x)
  {
    hide Word;
    forall i: nat, name, after ensures !FirstAt(s, i, name, after) {
      assert OptionalIs(s, i, name, after) ==> OptionalAt(s, i);
    }
  }

  lemma {:induction false} NormalStep(s: string, m: Match, x: string)
    requires Search(s) == Some(m) && Opens(s) > 0
    requires var left, right := m.before + m.after, m.before + "/:" + m.name + m.after;
             && (x in Normal(left) <==> WayTo(left, x))
             && (x in Normal(right) <==> WayTo(right, x))
    ensures x in Normal(s) <==> WayTo(s, x)
  {
    SearchIs(s);
    var left, right := m.before + m.after, m.before + "/:" + m.name + m.after;
    assert right == m.before + Segment(m.name) + m.after;
    assert Normal(s) == Normal(left) + Normal(right);
    var i := |m.before|;
    assert FirstAt(s, i, m.name, m.after);
    hide Normal, Search, Segment, OptionalIs, OptionalAt;
    if keeps :| Rewrites(left, keeps, x) {
      RewriteOnce(s, i, m.name, m.after, false, keeps, x);
    }
    if keeps :| Rewrites(right, keeps, x) {
      RewriteOnce(s, i, m.name, m.after, true, keeps, x);
    }
    if keeps :| Rewrites(s, keeps, x) {
      RewriteBack(s, m, keeps, x);
    }
  }

  lemma {:induction false} RewriteOnce(s: string, i: nat, name: string, after: string, keep: bool, keeps: seq<bool>,
                                       x: string)
    requires i <= |s| && FirstAt(s, i, name, after)
    requires Rewrites(if keep then s[..i] + "/:" + name + after else s[..i] + after, keeps, x)
    ensures Rewrites(s, [keep] + keeps, x)
  {
    var kept: string := if keep then "/:" + name else "";
    OneStep(s[..i], name, after, keep);
    assert Rewrites(s[..i] + kept + after, keeps, x);
    var all := [keep] + keeps;
    assert all[0] == keep && all[1..] == keeps;
    hide FirstAt, OptionalAt;
  }

  lemma {:induction false} OneStep(before: string, name: string, after: string, keep: bool)
    ensures before + (if keep then "/:" + name else "") + after
         == if keep then before + "/:" + name + after else before + after
  {
    assert before + "" == before;
    AppendAssoc(before, "/:", name);
  }

  lemma {:induction false} RewriteBack(s: string, m: Match, keeps: seq<bool>, x: string)
    requires Search(s) == Some(m) && Rewrites(s, keeps, x)
    ensures keeps != []
    ensures Rewrites(if keeps[0] then m.before + "/:" + m.name + m.after else m.before + m.after, keeps[1..], x)
  {
    SearchIs(s);
    assert keeps != [] by {
      assert OptionalAt(s, |m.before|);
    }
    hide NoOptional;
    hide FirstAt, Search;
    var i: nat, name, after :|
      && i <= |s| && FirstAt(s, i, name, after)
      && Rewrites(s[..i] + (if keeps[0] then "/:" + name else "") + after, keeps[1..], x);
    FirstIsSearch(s, i, name, after);
    OneStep(s[..i], name, after, keeps[0]);
  }

  /** `path_variants`, by what it returns: sorted, each once, every way of the path before
      its first question mark. */
  lemma {:induction false} VariantsMean(path: string)
    ensures StrictlySorted(VariantList(path), StringLess)
    ensures forall x :: x in VariantList(path) <==> WayTo(BeforeQuery(path), x)
  {
    StringOrder();
    SortedSetSorted(Normal(Base(path)), StringLess);
    var list, forms := VariantList(path), Normal(Base(path));
    assert list == SortedSet(forms, StringLess);
    hide *;
    forall x: string ensures x in VariantList(path) <==> WayTo(BeforeQuery(path), x) {
      VariantIs(path, x);
      SameMembers(list, forms, x);
    }
  }

  lemma {:induction false} VariantIs(path: string, x: string)
    ensures x in Normal(Base(path)) <==> WayTo(BeforeQuery(path), x)
  {
    BaseIs(path);
    NormalIs(Base(path), x);
  }

  lemma {:induction false} SameMembers(a: seq<string>, b: seq<string>, x: string)
    requires ToSet(a) == ToSet(b)
    ensures x in a <==> x in b
  {
    assert x in a <==> x in ToSet(a);
    assert x in b <==> x in ToSet(b);
  }

  /** Everything up to the first question mark. */
  function BeforeQuery(path: string): string {
    if path == "" || path[0] == '?' then "" else [path[0]] + BeforeQuery(path[1..])
  }

  lemma {:induction false} BaseIs(path: string)
    ensures Base(path) == BeforeQuery(path)
  {
    if path != "" && path[0] != '?' {
      BaseIs(path[1..]);
    }
  }

  // ----- Segments

  ghost predicate Slashes(s: string) {
    forall i :: 0 <= i < |s| ==> s[i] == '/'
  }

  /** The path without the slashes at its ends, cut at the others; nothing but slashes has
      no segments. */
  ghost predicate Cut(path: string, pieces: seq<string>) {
    || (pieces == [] && Slashes(path))
    || exists lead, core, trail :: Framed(path, lead, core, trail) && Joins(core, pieces)
  }

  ghost predicate Framed(path: string, lead: string, core: string, trail: string) {
    && path == lead + core + trail && Slashes(lead) && Slashes(trail)
    && core != "" && core[0] != '/' && core[|core| - 1] != '/'
  }

  /** The pieces of a text between its slashes. */
  ghost predicate Joins(text: string, pieces: seq<string>) {
    && pieces != [] && Join(pieces, '/') == text
    && forall i :: 0 <= i < |pieces| ==> '/' !in pieces[i]
  }

  lemma {:induction false} JoinsIs(text: string, pieces: seq<string>)
    ensures Joins(text, pieces) <==> pieces == Split(text, '/')
  {
    SplitPieces(text, '/');
    JoinSplit(text, '/');
    if Joins(text, pieces) {
      SplitJoin(pieces, '/');
    }
  }

  lemma {:induction false} StripLeftText(s: string)
    ensures var t := StripLeft(s);
            && |t| <= |s| && t == s[|s| - |t|..] && Slashes(s[..|s| - |t|]) && (t != "" ==> t[0] != '/')
  {
    if s != [] && s[0] == '/' {
      StripLeftText(s[1..]);
      var t := StripLeft(s[1..]);
      var n := |s| - |t|;
      assert s[1..][n - 1..] == s[n..];
      assert s[..n] == [s[0]] + s[1..][..n - 1];
    }
  }

  lemma {:induction false} StripRightText(s: string)
    ensures var t := StripRight(s);
            && |t| <= |s| && t == s[..|t|] && Slashes(s[|t|..]) && (t != "" ==> t[|t| - 1] != '/')
  {
    if s != [] && s[|s| - 1] == '/' {
      var front := s[..|s| - 1];
      StripRightText(front);
      var t := StripRight(front);
      assert front[..|t|] == s[..|t|];
      assert s[|t|..] == front[|t|..] + [s[|s| - 1]];
    }
  }

  lemma {:induction false} StripLeftIs(lead: string, rest: string)
    requires Slashes(lead) && (rest != "" ==> rest[0] != '/')
    ensures StripLeft(lead + rest) == rest
  {
    if lead == "" {
      assert lead + rest == rest;
    } else {
      StripLeftIs(lead[1..], rest);
      AppendHead(lead, rest);
    }
  }

  lemma {:induction false} StripRightIs(rest: string, trail: string)
    requires Slashes(trail) && (rest != "" ==> rest[|rest| - 1] != '/')
    ensures StripRight(rest + trail) == rest
  {
    if trail == "" {
      assert rest + trail == rest;
    } else {
      var n := |trail| - 1;
      StripRightIs(rest, trail[..n]);
      assert (rest + trail)[..|rest| + n] == rest + trail[..n];
    }
  }

  /** `path_segments` */
  lemma {:induction false} SegmentsMean(path: string, pieces: seq<string>)
    ensures Cut(path, pieces) <==> pieces == Segments(path)
  {
    var core := StripRight(StripLeft(path));
    StripFrames(path);
    JoinsIs(core, Segments(path));
    hide StripLeft, StripRight, Slashes, Framed, Joins, Split;
    if pieces == [] && Slashes(path) {
      StripSlashes(path);
    }
    if l, c, t :| Framed(path, l, c, t) && Joins(c, pieces) {
      FrameStrips(path, l, c, t);
      JoinsIs(c, pieces);
    }
  }

  lemma {:induction false} StripFrames(path: string)
    ensures var core := StripRight(StripLeft(path));
            if core == "" then Slashes(path) else exists lead, trail :: Framed(path, lead, core, trail)
  {
    StripLeftText(path);
    StripRightText(StripLeft(path));
    var left, core := StripLeft(path), StripRight(StripLeft(path));
    var lead, trail := path[..|path| - |left|], left[|core|..];
    Frames(path, left, core, lead, trail);
    hide StripLeft, StripRight, Slashes, Framed;
  }

  lemma {:induction false} Frames(path: string, left: string, core: string, lead: string, trail: string)
    requires |left| <= |path| && lead == path[..|path| - |left|] && left == path[|path| - |left|..]
    requires |core| <= |left| && core == left[..|core|] && trail == left[|core|..]
    requires Slashes(lead) && Slashes(trail)
    requires (left != "" ==> left[0] != '/') && (core != "" ==> core[|core| - 1] != '/')
    ensures if core == "" then Slashes(path) else Framed(path, lead, core, trail)
  {
    FrontBack(path, |path| - |left|);
    FrontBack(left, |core|);
    AppendAssoc(lead, core, trail);
  }

  lemma {:induction false} FrontBack(s: string, k: nat)
    requires k <= |s|
    ensures s == s[..k] + s[k..]
  {
  }

  lemma {:induction false} StripSlashes(path: string)
    requires Slashes(path)
    ensures StripRight(StripLeft(path)) == ""
  {
    StripLeftIs(path, "");
    assert path + "" == path;
  }

  lemma {:induction false} FrameStrips(path: string, lead: string, core: string, trail: string)
    requires Framed(path, lead, core, trail)
    ensures core != "" && StripRight(StripLeft(path)) == core
  {
    StripLeftIs(lead, core + trail);
    AppendAssoc(lead, core, trail);
    StripRightIs(core, trail);
  }

  // ----- Points

  /** `:name`, `{name}` or `(name)`, possibly before a final newline, with no slash in it. */
  ghost predicate Placeholder(segment: string) {
    exists text, name :: (segment == text || segment == text + "\n") && Names(text, name)
  }

  ghost predicate Names(s: string, name: string) {
    name != "" && '/' !in name && (s == ":" + name || s == "{" + name + "}" || s == "(" + name + ")")
  }

  ghost predicate Occurs(part: string, s: string) {
    exists a, b :: s == a + part + b
  }

  lemma {:induction false} ContainsIs(s: string, part: string)
    ensures Contains(s, part) <==> Occurs(part, s)
  {
    FindFirst(s, part);
    hide Find;
    if Contains(s, part) {
      PrefixOccurs(s, part, Find(s, part).value);
    }
    if a, b :| s == a + part + b {
      OccursPrefix(s, a, part, b);
    }
  }

  lemma {:induction false} PrefixOccurs(s: string, part: string, i: nat)
    requires i <= |s| && StartsWith(s[i..], part)
    ensures Occurs(part, s)
  {
    assert s == s[..i] + part + s[i + |part|..];
  }

  lemma {:induction false} OccursPrefix(s: string, a: string, part: string, b: string)
    requires s == a + part + b
    ensures |a| <= |s| && StartsWith(s[|a|..], part)
  {
    assert s[|a|..] == part + b;
  }

  lemma {:induction false} BracketedIs(s: string)
    ensures Bracketed(s) <==> exists name :: Names(s, name)
  {
    var n := |s|;
    if Bracketed(s) {
      if s[0] == ':' {
        assert s == ":" + s[1..];
        assert Names(s, s[1..]);
      } else {
        assert s == [s[0]] + s[1..n - 1] + [s[n - 1]];
        assert Names(s, s[1..n - 1]);
      }
    }
    if name :| Names(s, name) {
      assert s[1..|name| + 1] == name;
    }
  }

  lemma {:induction false} PlaceholderIs(segment: string)
    ensures IsPlaceholder(segment) <==> Placeholder(segment)
  {
    BracketedIs(segment);
    if segment != "" {
      BracketedIs(segment[..|segment| - 1]);
      if segment[|segment| - 1] == '\n' {
        assert segment == segment[..|segment| - 1] + "\n";
      }
    }
    if text, name :| (segment == text || segment == text + "\n") && Names(text, name) {
      if segment == text + "\n" {
        assert segment[..|segment| - 1] == text;
      }
    }
    hide Bracketed, Names;
  }

  /** The normalised directory and file names of a documentation file, without its `.mdx`. */
  ghost predicate SourceTokens(source: string, norm: string -> string, tokens: set<string>) {
    exists base, names ::
      && (source == base + ".mdx" || (source == base && forall b :: source != b + ".mdx"))
      && Joins(base, names)
      && forall t :: t in tokens <==> exists i :: 0 <= i < |names| && t == norm(names[i])
  }

  /** What one pair of segments scores. */
  ghost predicate Points(expected: string, actual: string, tokens: set<string>, norm: string -> string,
                         points: Option<nat>) {
    if expected == actual then points == Some(100)
    else if Placeholder(actual) then
      if Placeholder(expected) then points == Some(20)
      else if norm(expected) != "" && Occurs(norm(expected), norm(actual)) then points == Some(80)
      else if exists t :: t in tokens && t != "" && Occurs(t, norm(actual)) then points == Some(60)
      else points == Some(5)
    else if Placeholder(expected) then points == Some(10)
    else points == None
  }

  lemma {:induction false} PointsMean(expected: string, actual: string, tokens: set<string>, norm: string -> string,
                                      points: Option<nat>)
    ensures Points(expected, actual, tokens, norm, points) <==> points == PairScore(expected, actual, tokens, norm)
  {
    PlaceholderIs(expected);
    PlaceholderIs(actual);
    ContainsIs(norm(actual), norm(expected));
    forall t ensures Contains(norm(actual), t) <==> Occurs(t, norm(actual)) {
      ContainsIs(norm(actual), t);
    }
    hide Placeholder, IsPlaceholder, Contains, Occurs;
  }

  lemma {:induction false} TokensMean(source: string, norm: string -> string, tokens: set<string>)
    ensures SourceTokens(source, norm, tokens) <==> tokens == Tokens(source, norm)
  {
    var base := RemoveSuffix(source, ".mdx");
    SuffixIs(source, base);
    var names := Split(base, '/');
    JoinsIs(base, names);
    TokenSet(base, names, source, norm);
    hide Tokens, RemoveSuffix, Joins;
    if b, ns :| && (source == b + ".mdx" || (source == b && forall x :: source != x + ".mdx"))
                && Joins(b, ns)
                && forall t :: t in tokens <==> exists i :: 0 <= i < |ns| && t == norm(ns[i]) {
      SuffixIs(source, b);
      JoinsIs(b, ns);
    }
  }

  lemma {:induction false} TokenSet(base: string, names: seq<string>, source: string, norm: string -> string)
    requires base == RemoveSuffix(source, ".mdx") && names == Split(base, '/')
    ensures forall t :: t in Tokens(source, norm) <==> exists i :: 0 <= i < |names| && t == norm(names[i])
  {
  }

  lemma {:induction false} SuffixIs(source: string, base: string)
    ensures (source == base + ".mdx" || (source == base && forall b :: source != b + ".mdx"))
        <==> base == RemoveSuffix(source, ".mdx")
  {
    var n := |source| - 4;
    if n >= 0 && source[n..] == ".mdx" {
      assert source == source[..n] + ".mdx";
    }
    forall b | source == b + ".mdx" ensures n >= 0 && source[n..] == ".mdx" && source[..n] == b {
    }
  }

  // ----- Scores

  function Sum(numbers: seq<nat>): nat {
    if numbers == [] then 0 else Sum(numbers[..|numbers| - 1]) + numbers[|numbers| - 1]
  }

  /** Each pair of segments scores these points. */
  ghost predicate PairsScore(left: seq<string>, right: seq<string>, tokens: set<string>, norm: string -> string,
                             points: seq<nat>) {
    && |left| == |right| == |points|
    && forall i :: 0 <= i < |left| ==> Points(left[i], right[i], tokens, norm, Some(points[i]))
  }

  lemma {:induction false} TotalMeans(left: seq<string>, right: seq<string>, tokens: set<string>,
                                      norm: string -> string, points: seq<nat>)
    requires PairsScore(left, right, tokens, norm, points)
    ensures Total(left, right, tokens, norm) == Some(Sum(points))
  {
    hide Points;
    if left != [] {
      var n := |left| - 1;
      TotalMeans(left[..n], right[..n], tokens, norm, points[..n]);
      PointsMean(left[n], right[n], tokens, norm, Some(points[n]));
    }
  }

  lemma {:induction false} TotalPoints(left: seq<string>, right: seq<string>, tokens: set<string>,
                                       norm: string -> string) returns (points: seq<nat>)
    requires |left| == |right| && Total(left, right, tokens, norm).Some?
    ensures PairsScore(left, right, tokens, norm, points)
  {
    hide Points, PairScore;
    points := [];
    if left != [] {
      var n := |left| - 1;
      points := TotalPoints(left[..n], right[..n], tokens, norm);
      var last := PairScore(left[n], right[n], tokens, norm).value;
      PointsMean(left[n], right[n], tokens, norm, Some(last));
      points := points + [last];
    }
  }

  /** The two paths have as many segments, every pair scores, and the points add up to `n`. */
  ghost predicate Scored(documented: string, candidate: string, source: string, norm: string -> string, n: nat) {
    exists left, right, tokens, points ::
      && Cut(documented, left) && Cut(candidate, right) && SourceTokens(source, norm, tokens)
      && PairsScore(left, right, tokens, norm, points) && Sum(points) == n
  }

  /** `path_score` */
  lemma {:induction false} ScoreMeans(documented: string, candidate: string, source: string,
                                      norm: string -> string, n: nat)
    ensures Scored(documented, candidate, source, norm, n) <==> Score(documented, candidate, source, norm) == Some(n)
  {
    var left, right, tokens := Segments(documented), Segments(candidate), Tokens(source, norm);
    hide Segments, Tokens, Cut, SourceTokens, PairsScore, Total, Sum;
    if l, r, t, points :|
      && Cut(documented, l) && Cut(candidate, r) && SourceTokens(source, norm, t)
      && PairsScore(l, r, t, norm, points) && Sum(points) == n
    {
      SegmentsMean(documented, l);
      SegmentsMean(candidate, r);
      TokensMean(source, norm, t);
      PairsLength(l, r, t, norm, points);
      TotalMeans(l, r, t, norm, points);
    }
    if Score(documented, candidate, source, norm) == Some(n) {
      SegmentsMean(documented, left);
      SegmentsMean(candidate, right);
      TokensMean(source, norm, tokens);
      var points := TotalPoints(left, right, tokens, norm);
      TotalMeans(left, right, tokens, norm, points);
    }
  }

  lemma {:induction false} PairsLength(left: seq<string>, right: seq<string>, tokens: set<string>,
                                       norm: string -> string, points: seq<nat>)
    requires PairsScore(left, right, tokens, norm, points)
    ensures |left| == |right|
  {
  }

  // ----- Methods

  /** The key under which a path item answers a documented method: a method of HTTP is
      answered under its own lower-case name, and LIST and SCAN by a GET operation that has
      the parameter `list` or `scan`. */
  ghost predicate Answers(verb: string, item: PathItem, key: string) {
    && key in item
    && (|| (verb == "GET" && key == "get") || (verb == "HEAD" && key == "head")
        || (verb == "POST" && key == "post") || (verb == "PUT" && key == "put")
        || (verb == "PATCH" && key == "patch") || (verb == "DELETE" && key == "delete")
        || (verb == "LIST" && key == "get" && "list" in item[key].parameters)
        || (verb == "SCAN" && key == "get" && "scan" in item[key].parameters))
  }

  /** `method_operation` */
  lemma {:induction false} MethodMeans(verb: string, item: PathItem, key: string)
    ensures Answers(verb, item, key) <==>
              key in item && MethodOperation(verb, item) == Some((key, item[key]))
  {
    MethodSome(verb, item);
    if Answers(verb, item, key) {
      MethodKey(verb, item, key);
    }
  }

  lemma {:induction false} MethodSome(verb: string, item: PathItem)
    ensures var found := MethodOperation(verb, item);
            found.Some? ==> Answers(verb, item, found.value.0) && found.value.1 == item[found.value.0]
  {
  }

  lemma {:induction false} MethodKey(verb: string, item: PathItem, key: string)
    requires Answers(verb, item, key)
    ensures MethodOperation(verb, item) == Some((key, item[key]))
  {
  }

  // ----- Selection

  /** Some variant of the documented path scores `n` against a path that answers the method. */
  ghost predicate Offers(q: Query, paths: map<string, PathItem>, norm: string -> string, p: string, n: nat) {
    && p in paths && (exists key :: Answers(q.verb, paths[p], key))
    && exists x :: WayTo(BeforeQuery(q.path), x) && Scored(x, p, q.source, norm, n)
  }

  ghost predicate Best(q: Query, paths: map<string, PathItem>, norm: string -> string, p: string, n: nat) {
    && Offers(q, paths, norm, p, n)
    && forall o, m: nat :: Offers(q, paths, norm, o, m) ==> m <= n
  }

  /** What is selected: nothing without an offer, the path of the single best offer with the
      operation that answers, and otherwise all paths of the best offers, sorted. */
  ghost predicate Picks(q: Query, paths: map<string, PathItem>, norm: string -> string, s: Selection) {
    match s
    case Absent => forall p, n: nat :: !Offers(q, paths, norm, p, n)
    case Exact(p, key, operation) =>
      && (exists n: nat :: Best(q, paths, norm, p, n) && forall o :: Best(q, paths, norm, o, n) ==> o == p)
      && p in paths && Answers(q.verb, paths[p], key) && operation == paths[p][key]
    case Ambiguous(list) =>
      && |list| >= 2 && StrictlySorted(list, StringLess)
      && exists n: nat :: Best(q, paths, norm, list[0], n) && forall o :: o in list <==> Best(q, paths, norm, o, n)
  }

  lemma {:induction false} BestOfMeans(variants: seq<string>, candidate: string, source: string, norm: string -> string)
    ensures var best := BestOf(variants, candidate, source, norm);
            && (best.Some? ==> exists x :: x in variants && Score(x, candidate, source, norm) == best)
            && forall x :: x in variants && Score(x, candidate, source, norm).Some? ==>
                 best.Some? && Score(x, candidate, source, norm).value <= best.value
  {
    if variants != [] {
      var n := |variants| - 1;
      BestOfMeans(variants[..n], candidate, source, norm);
      hide Score;
      FrontLast(variants);
      assert variants[n] in variants;
      assert forall x :: x in variants <==> x in variants[..n] || x == variants[n];
    }
  }

  /** The rank is the largest offer. */
  lemma {:induction false} RankMeans(q: Query, paths: map<string, PathItem>, norm: string -> string, p: string)
    requires p in paths
    ensures var rank := Rank(q, p, paths[p], norm);
            && (rank.Some? ==> Offers(q, paths, norm, p, rank.value))
            && forall n: nat :: Offers(q, paths, norm, p, n) ==> rank.Some? && n <= rank.value
  {
    if Rank(q, p, paths[p], norm).Some? {
      RankOffers(q, paths, norm, p);
    }
    forall n: nat | Offers(q, paths, norm, p, n)
      ensures Rank(q, p, paths[p], norm).Some? && n <= Rank(q, p, paths[p], norm).value
    {
      OfferBelow(q, paths, norm, p, n);
    }
    hide Rank, Offers;
  }

  lemma {:induction false} RankOffers(q: Query, paths: map<string, PathItem>, norm: string -> string, p: string)
    requires p in paths && Rank(q, p, paths[p], norm).Some?
    ensures Offers(q, paths, norm, p, Rank(q, p, paths[p], norm).value)
  {
    var variants := VariantList(q.path);
    BestOfMeans(variants, p, q.source, norm);
    VariantsMean(q.path);
    MethodSome(q.verb, paths[p]);
    hide MethodOperation, Answers, BestOf, Score, Scored, WayTo, BeforeQuery, VariantList, StrictlySorted;
    var rank := Rank(q, p, paths[p], norm);
    var x :| x in variants && Score(x, p, q.source, norm) == rank;
    ScoreMeans(x, p, q.source, norm, rank.value);
  }

  lemma {:induction false} OfferBelow(q: Query, paths: map<string, PathItem>, norm: string -> string, p: string, n: nat)
    requires p in paths && Offers(q, paths, norm, p, n)
    ensures Rank(q, p, paths[p], norm).Some? && n <= Rank(q, p, paths[p], norm).value
  {
    var variants := VariantList(q.path);
    BestOfMeans(variants, p, q.source, norm);
    VariantsMean(q.path);
    hide MethodOperation, Answers, BestOf, Score, Scored, WayTo, BeforeQuery, VariantList, StrictlySorted;
    var key :| Answers(q.verb, paths[p], key);
    MethodMeans(q.verb, paths[p], key);
    var x :| WayTo(BeforeQuery(q.path), x) && Scored(x, p, q.source, norm, n);
    ScoreMeans(x, p, q.source, norm, n);
  }

  /** The winners are the paths of the best offers. */
  lemma {:induction false} WinnerIsBest(q: Query, paths: map<string, PathItem>, norm: string -> string, p: string)
    ensures Winner(q, paths, p, norm) ==> Best(q, paths, norm, p, Rank(q, p, paths[p], norm).value)
    ensures forall n: nat :: Best(q, paths, norm, p, n) ==> Winner(q, paths, p, norm)
  {
    forall o | o in paths
      ensures Rank(q, o, paths[o], norm).Some? ==> Offers(q, paths, norm, o, Rank(q, o, paths[o], norm).value)
      ensures forall n: nat :: Offers(q, paths, norm, o, n) ==>
                Rank(q, o, paths[o], norm).Some? && n <= Rank(q, o, paths[o], norm).value
    {
      RankMeans(q, paths, norm, o);
    }
    OffersInPaths(q, paths, norm);
    hide Rank, Offers;
  }

  lemma {:induction false} OffersInPaths(q: Query, paths: map<string, PathItem>, norm: string -> string)
    ensures forall o, n: nat :: Offers(q, paths, norm, o, n) ==> o in paths
  {
  }

  /** Among finitely many candidates with a rank some are winners. */
  lemma {:induction false} TopRank(q: Query, paths: map<string, PathItem>, norm: string -> string,
                                   keys: set<string>, p: string) returns (top: string)
    requires keys <= paths.Keys && p in keys && Rank(q, p, paths[p], norm).Some?
    ensures top in keys && Rank(q, top, paths[top], norm).Some?
    ensures forall o :: o in keys && Rank(q, o, paths[o], norm).Some? ==>
              Rank(q, o, paths[o], norm).value <= Rank(q, top, paths[top], norm).value
    decreases |keys|
  {
    hide Rank;
    top := p;
    if next :| next in keys - {p} && Rank(q, next, paths[next], norm).Some? {
      var other := TopRank(q, paths, norm, keys - {p}, next);
      if Rank(q, p, paths[p], norm).value < Rank(q, other, paths[other], norm).value {
        top := other;
      }
    }
  }

  lemma {:induction false} NoOffer(q: Query, paths: map<string, PathItem>, norm: string -> string, p: string, n: nat)
    requires forall o :: !Winner(q, paths, o, norm)
    ensures !Offers(q, paths, norm, p, n)
  {
    if Offers(q, paths, norm, p, n) {
      RankMeans(q, paths, norm, p);
      var top := TopRank(q, paths, norm, paths.Keys, p);
      assert Winner(q, paths, top, norm);
    }
  }

  /** The best offers have one score. */
  lemma {:induction false} OneBest(q: Query, paths: map<string, PathItem>, norm: string -> string,
                                   a: string, n: nat, b: string, m: nat)
    requires Best(q, paths, norm, a, n) && Best(q, paths, norm, b, m)
    ensures n == m
  {
  }

  lemma {:induction false} SelectionMeans(q: Query, paths: map<string, PathItem>, norm: string -> string, s: Selection)
    requires Selects(q, paths, norm, s)
    ensures Picks(q, paths, norm, s)
  {
    hide Winner, Best, Rank, Offers, MethodOperation, Answers, StrictlySorted;
    match s {
      case Absent =>
        forall p, n: nat ensures !Offers(q, paths, norm, p, n) {
          NoOffer(q, paths, norm, p, n);
        }
      case Exact(p, key, operation) =>
        ExactMeans(q, paths, norm, p, key, operation);
      case Ambiguous(list) =>
        AmbiguousMeans(q, paths, norm, list);
    }
  }

  lemma {:induction false} ExactMeans(q: Query, paths: map<string, PathItem>, norm: string -> string,
                                      p: string, key: string, operation: Operation)
    requires Selects(q, paths, norm, Exact(p, key, operation))
    ensures Picks(q, paths, norm, Exact(p, key, operation))
  {
    MethodSome(q.verb, paths[p]);
    WinnersMean(q, paths, norm, p);
    hide Winner, Best, Rank, Offers, MethodOperation, Answers;
  }

  lemma {:induction false} AmbiguousMeans(q: Query, paths: map<string, PathItem>, norm: string -> string,
                                          list: seq<string>)
    requires Selects(q, paths, norm, Ambiguous(list))
    ensures Picks(q, paths, norm, Ambiguous(list))
  {
    assert list[0] in list;
    WinnersMean(q, paths, norm, list[0]);
    hide Winner, Best, Rank, Offers, MethodOperation, Answers, StrictlySorted;
  }

  lemma {:induction false} WinnersMean(q: Query, paths: map<string, PathItem>, norm: string -> string, p: string)
    requires Winner(q, paths, p, norm)
    ensures exists n: nat ::
              && Best(q, paths, norm, p, n)
              && forall o :: Winner(q, paths, o, norm) <==> Best(q, paths, norm, o, n)
  {
    WinnerIsBest(q, paths, norm, p);
    var n := Rank(q, p, paths[p], norm).value;
    forall o ensures Winner(q, paths, o, norm) <==> Best(q, paths, norm, o, n) {
      WinnerIsBest(q, paths, norm, o);
      if Winner(q, paths, o, norm) {
        OneBest(q, paths, norm, p, n, o, Rank(q, o, paths[o], norm).value);
      }
    }
    hide Best, Rank, Offers;
  }

  /** The selection of `openapi_contract`, whatever order the paths come in. */
  method SelectRoute(q: Query, paths: map<string, PathItem>, order: seq<string>,
                     norm: string -> string) returns (s: Selection)
    requires Distinct(order) && ToSet(order) == paths.Keys
    ensures Picks(q, paths, norm, s)
  {
    s := Select(q, paths, order, norm);
    SelectionMeans(q, paths, norm, s);
  }
}
