/** The CI matrix: which releases are exercised, what a result record must look like, and
    the aggregate report with its exit code and its separate validator
    (scripts/openbao_ci_matrix.py). */
module CiMatrix {
  import opened Text
  import opened Versions

  // ----- Which releases

  datatype Line = Line(major: nat, minor: nat)

  function LineOf(v: Version): Line {
    Line(v.major, v.minor)
  }

  /** The inventory names its releases canonically and in ascending order. */
  ghost predicate Inventory(texts: seq<string>, versions: seq<Version>) {
    && |texts| == |versions| && Ascending(versions)
    && forall i :: 0 <= i < |texts| ==> texts[i] == Render(versions[i])
  }

  /** The newest patch of its minor line. */
  ghost predicate Newest(versions: seq<Version>, i: nat)
    requires i < |versions|
  {
    forall j :: 0 <= j < |versions| && LineOf(versions[j]) == LineOf(versions[i]) ==> AtMost(versions[j], versions[i])
  }

  /** The last release of its run of equal minor lines. */
  predicate EndsLine(versions: seq<Version>, i: nat)
    requires i < |versions|
  {
    i + 1 == |versions| || LineOf(versions[i + 1]) != LineOf(versions[i])
  }

  lemma {:induction false} LinesAscend(versions: seq<Version>, i: nat, m: nat, j: nat)
    requires Ascending(versions) && i <= m <= j < |versions| && LineOf(versions[i]) == LineOf(versions[j])
    ensures LineOf(versions[m]) == LineOf(versions[i])
  {
    OrderIsPosition(versions, i, m);
    OrderIsPosition(versions, m, j);
  }

  /** In an ascending inventory a run of equal lines is the whole line. */
  lemma {:induction false} EndIsNewest(versions: seq<Version>, i: nat)
    requires Ascending(versions) && i < |versions|
    ensures EndsLine(versions, i) <==> Newest(versions, i)
  {
    if EndsLine(versions, i) {
      forall j | 0 <= j < |versions| && LineOf(versions[j]) == LineOf(versions[i])
        ensures AtMost(versions[j], versions[i])
      {
        if i < j {
          LinesAscend(versions, i, i + 1, j);
        }
        OrderIsPosition(versions, j, i);
      }
    } else {
      OrderIsPosition(versions, i + 1, i);
    }
  }

  /** The representative releases: the first one and the newest patch of each minor line. */
  function Chosen(texts: seq<string>, versions: seq<Version>, n: nat): seq<string>
    requires |texts| == |versions| && n <= |versions|
  {
    if n == 0 then []
    else
      Chosen(texts, versions, n - 1) + (if n == 1 || EndsLine(versions, n - 1) then [texts[n - 1]] else [])
  }

  /** The last release of each line among the first `n`, in order. */
  function Ends(texts: seq<string>, versions: seq<Version>, n: nat): seq<string>
    requires |texts| == |versions| && n <= |versions|
  {
    if n == 0 then []
    else Ends(texts, versions, n - 1) + (if EndsLine(versions, n - 1) then [texts[n - 1]] else [])
  }

  function EndLines(versions: seq<Version>, n: nat): seq<Line>
    requires n <= |versions|
  {
    if n == 0 then []
    else EndLines(versions, n - 1) + (if EndsLine(versions, n - 1) then [LineOf(versions[n - 1])] else [])
  }

  /** A line that has ended does not come back. */
  lemma {:induction false} NotAgain(versions: seq<Version>, n: nat, k: nat)
    requires Ascending(versions) && n <= k < |versions|
    ensures LineOf(versions[k]) !in EndLines(versions, n)
    decreases n
  {
    if n > 0 {
      NotAgain(versions, n - 1, k);
      if LineOf(versions[n - 1]) == LineOf(versions[k]) {
        LinesAscend(versions, n - 1, n, k);
      }
    }
  }

  lemma {:induction false} EndLinesDistinct(versions: seq<Version>, n: nat)
    requires Ascending(versions) && n <= |versions|
    ensures Distinct(EndLines(versions, n))
  {
    if n > 0 {
      EndLinesDistinct(versions, n - 1);
      NotAgain(versions, n - 1, n - 1);
    }
  }

  /** `latest_by_minor`: a dictionary that keeps the order of first insertion. */
  datatype Latest = Latest(order: seq<Line>, entries: map<Line, string>)

  ghost predicate Sound(d: Latest) {
    Distinct(d.order) && forall line: Line :: line in d.order <==> line in d.entries
  }

  function Put(d: Latest, line: Line, text: string): Latest {
    Latest(if line in d.entries then d.order else d.order + [line], d.entries[line := text])
  }

  function Values(d: Latest): seq<string> {
    seq(|d.order|, i requires 0 <= i < |d.order| => if d.order[i] in d.entries then d.entries[d.order[i]] else "")
  }

  /** The dictionary after the first `n` releases, in whatever order they are listed. */
  function Fold(texts: seq<string>, versions: seq<Version>, n: nat): Latest
    requires |texts| == |versions| && n <= |texts|
  {
    if n == 0 then Latest([], map[]) else Put(Fold(texts, versions, n - 1), LineOf(versions[n - 1]), texts[n - 1])
  }

  /** The last of the first `n` releases on a line. */
  function LastAt(versions: seq<Version>, line: Line, n: nat): (r: Option<nat>)
    requires n <= |versions|
    ensures r.Some? ==> r.value < n && LineOf(versions[r.value]) == line
    ensures forall j :: (if r.Some? then r.value + 1 else 0) <= j < n ==> LineOf(versions[j]) != line
  {
    if n == 0 then None
    else if LineOf(versions[n - 1]) == line then Some(n - 1)
    else LastAt(versions, line, n - 1)
  }

  /** The dictionary holds, for every line, exactly its last release. */
  ghost predicate HoldsLast(d: Latest, texts: seq<string>, versions: seq<Version>, n: nat)
    requires |texts| == |versions| && n <= |texts|
  {
    && Sound(d)
    && forall line: Line ::
         var last := LastAt(versions, line, n);
         (line in d.entries <==> last.Some?) && (last.Some? ==> d.entries[line] == texts[last.value])
  }

  lemma {:induction false} FoldHolds(texts: seq<string>, versions: seq<Version>, n: nat)
    requires |texts| == |versions| && n <= |texts|
    ensures HoldsLast(Fold(texts, versions, n), texts, versions, n)
  {
    hide Put, HoldsLast;
    if n == 0 {
      HoldsNone(texts, versions);
    } else {
      FoldHolds(texts, versions, n - 1);
      HoldsStep(Fold(texts, versions, n - 1), texts, versions, n);
    }
  }

  lemma {:induction false} HoldsNone(texts: seq<string>, versions: seq<Version>)
    requires |texts| == |versions|
    ensures HoldsLast(Latest([], map[]), texts, versions, 0)
  {
  }

  lemma {:induction false} LastAtSnoc(versions: seq<Version>, line: Line, n: nat)
    requires 0 < n <= |versions|
    ensures LastAt(versions, line, n)
         == if LineOf(versions[n - 1]) == line then Some(n - 1) else LastAt(versions, line, n - 1)
  {
  }

  lemma {:induction false} PutSound(d: Latest, line: Line, text: string)
    requires Sound(d)
    ensures Sound(Put(d, line, text))
  {
  }

  lemma {:induction false} HoldsStep(d: Latest, texts: seq<string>, versions: seq<Version>, n: nat)
    requires |texts| == |versions| && 0 < n <= |texts| && HoldsLast(d, texts, versions, n - 1)
    ensures HoldsLast(Put(d, LineOf(versions[n - 1]), texts[n - 1]), texts, versions, n)
  {
    var after := Put(d, LineOf(versions[n - 1]), texts[n - 1]);
    PutSound(d, LineOf(versions[n - 1]), texts[n - 1]);
    hide LastAt, LineOf, Sound;
    forall line: Line
      ensures var last := LastAt(versions, line, n);
              (line in after.entries <==> last.Some?) && (last.Some? ==> after.entries[line] == texts[last.value])
    {
      LastAtSnoc(versions, line, n);
    }
  }

  lemma {:induction false} PutNew(d: Latest, line: Line, text: string)
    requires Sound(d) && line !in d.order
    ensures Sound(Put(d, line, text)) && Values(Put(d, line, text)) == Values(d) + [text]
  {
  }

  lemma {:induction false} PutLast(d: Latest, lines: seq<Line>, line: Line, values: seq<string>, old': string,
                                   text: string)
    requires Sound(d) && d.order == lines + [line] && Values(d) == values + [old']
    ensures Sound(Put(d, line, text)) && Put(d, line, text).order == d.order
    ensures Values(Put(d, line, text)) == values + [text]
  {
    var all := Values(Put(d, line, text));
    forall i | 0 <= i < |lines| ensures all[i] == values[i] {
      assert d.order[i] != d.order[|lines|];
      assert Values(d)[i] == values[i];
    }
  }

  /** The dictionary after the first `k` releases: the ended lines, then the current one. */
  ghost predicate Tracks(d: Latest, texts: seq<string>, versions: seq<Version>, k: nat)
    requires |texts| == |versions| && 0 < k <= |versions|
  {
    && Sound(d) && d.order == EndLines(versions, k - 1) + [LineOf(versions[k - 1])]
    && Values(d) == Ends(texts, versions, k - 1) + [texts[k - 1]]
  }

  lemma {:induction false} TrackStep(d: Latest, texts: seq<string>, versions: seq<Version>, k: nat)
    requires |texts| == |versions| && 0 < k < |versions| && Ascending(versions) && Tracks(d, texts, versions, k)
    ensures Tracks(Put(d, LineOf(versions[k]), texts[k]), texts, versions, k + 1)
  {
    hide Ascending, Values, Sound, Put;
    var line := LineOf(versions[k]);
    if EndsLine(versions, k - 1) {
      NotAgain(versions, k, k);
      PutNew(d, line, texts[k]);
      PutOrder(d, line, texts[k]);
    } else {
      PutLast(d, EndLines(versions, k - 1), line, Ends(texts, versions, k - 1), texts[k - 1], texts[k]);
    }
  }

  lemma {:induction false} PutOrder(d: Latest, line: Line, text: string)
    requires Sound(d) && line !in d.order
    ensures Put(d, line, text).order == d.order + [line]
  {
  }

  // ----- The selection

  /** `selected`, with every value that is not in it yet appended. */
  function Dedup(selected: seq<string>, values: seq<string>): seq<string> {
    if values == [] then selected
    else
      var front, last := Dedup(selected, values[..|values| - 1]), values[|values| - 1];
      if last in front then front else front + [last]
  }

  lemma {:induction false} DedupSnoc(selected: seq<string>, values: seq<string>, x: string)
    ensures var front := Dedup(selected, values);
            Dedup(selected, values + [x]) == if x in front then front else front + [x]
  {
    assert (values + [x])[..|values|] == values;
  }

  lemma {:induction false} DedupMembers(selected: seq<string>, values: seq<string>)
    requires Distinct(selected)
    ensures Distinct(Dedup(selected, values)) && selected <= Dedup(selected, values)
    ensures forall x :: x in Dedup(selected, values) <==> x in selected || x in values
  {
    if values != [] {
      var front := values[..|values| - 1];
      DedupMembers(selected, front);
      assert values == front + [values[|values| - 1]];
    }
  }

  /** Every release name has the canonical form. */
  predicate Canonical(texts: seq<string>) {
    forall i :: 0 <= i < |texts| ==> ParseVersion(texts[i]).Some?
  }

  function VersionsOf(texts: seq<string>): (versions: seq<Version>)
    requires Canonical(texts)
    ensures |versions| == |texts|
  {
    seq(|texts|, i requires 0 <= i < |texts| => ParseVersion(texts[i]).value)
  }

  function Representative(texts: seq<string>): seq<string>
    requires texts != [] && Canonical(texts)
  {
    Dedup([texts[0]], Values(Fold(texts, VersionsOf(texts), |texts|)))
  }

  /** What a profile selects from any inventory; None for a refusal. */
  function Profile(profile: string, texts: seq<string>): Option<seq<string>> {
    if texts == [] then None
    else if profile == "all" then Some(texts)
    else if profile == "representative" && Canonical(texts) && |Representative(texts)| >= 2
    then Some(Representative(texts))
    else None
  }

  /** The last listed release of its line. */
  predicate EndsItsLine(versions: seq<Version>, i: nat) {
    i < |versions| && LastAt(versions, LineOf(versions[i]), |versions|) == Some(i)
  }

  ghost predicate IsLast(texts: seq<string>, versions: seq<Version>, x: string)
    requires |texts| == |versions|
  {
    exists i :: 0 <= i < |texts| && EndsItsLine(versions, i) && texts[i] == x
  }

  /** In any inventory the representative releases are the first one and, each once, the last
      listed release of every minor line. */
  lemma {:induction false} RepresentativeIs(texts: seq<string>)
    requires texts != [] && Canonical(texts)
    ensures var r := Representative(texts);
            && Distinct(r) && r != [] && r[0] == texts[0]
            && forall x :: x in r <==> (x == texts[0] || IsLast(texts, VersionsOf(texts), x))
  {
    var versions := VersionsOf(texts);
    var d := Fold(texts, versions, |texts|);
    hide Canonical, VersionsOf, Dedup, Fold, LineOf, IsLast, Values;
    FoldHolds(texts, versions, |texts|);
    DedupMembers([texts[0]], Values(d));
    forall x ensures x in Values(d) <==> IsLast(texts, versions, x) {
      ValuesAre(texts, versions, d, x);
    }
  }

  lemma {:induction false} ValuesAre(texts: seq<string>, versions: seq<Version>, d: Latest, x: string)
    requires |texts| == |versions| && HoldsLast(d, texts, versions, |texts|)
    ensures x in Values(d) <==> IsLast(texts, versions, x)
  {
    hide LineOf;
    if x in Values(d) {
      var k :| 0 <= k < |d.order| && Values(d)[k] == x;
      assert d.order[k] in d.entries;
      assert EndsItsLine(versions, LastAt(versions, d.order[k], |texts|).value);
    }
    if IsLast(texts, versions, x) {
      var i :| 0 <= i < |texts| && EndsItsLine(versions, i) && texts[i] == x;
      assert LineOf(versions[i]) in d.order;
      var k :| 0 <= k < |d.order| && d.order[k] == LineOf(versions[i]);
      assert Values(d)[k] == x;
    }
  }

  // ----- In an ascending inventory

  function Others(list: seq<string>, first: string): seq<string> {
    if list == [] then []
    else
      var last := list[|list| - 1];
      Others(list[..|list| - 1], first) + (if last == first then [] else [last])
  }

  lemma {:induction false} OthersMembers(list: seq<string>, first: string)
    ensures forall x :: x in Others(list, first) <==> x in list && x != first
  {
    if list != [] {
      var front := list[..|list| - 1];
      OthersMembers(front, first);
      assert list == front + [list[|list| - 1]];
    }
  }

  lemma {:induction false} InventoryDistinct(texts: seq<string>, versions: seq<Version>)
    requires Inventory(texts, versions)
    ensures Distinct(texts)
  {
    forall i, j | 0 <= i < j < |texts| ensures texts[i] != texts[j] {
      ParseIsRenderInverse(texts[i], versions[i]);
      ParseIsRenderInverse(texts[j], versions[j]);
      OrderIsPosition(versions, i, j);
    }
  }

  lemma {:induction false} EndsMembers(texts: seq<string>, versions: seq<Version>, n: nat)
    requires |texts| == |versions| && n <= |versions| && Distinct(texts)
    ensures Distinct(Ends(texts, versions, n))
    ensures forall x :: x in Ends(texts, versions, n) ==> x in texts[..n]
  {
    if n > 0 {
      EndsMembers(texts, versions, n - 1);
      assert texts[n - 1] !in texts[..n - 1];
      assert texts[..n] == texts[..n - 1] + [texts[n - 1]];
      hide EndsLine;
    }
  }

  lemma {:induction false} ChosenIsOthers(texts: seq<string>, versions: seq<Version>, n: nat)
    requires |texts| == |versions| && 0 < n <= |versions| && Distinct(texts)
    ensures Chosen(texts, versions, n) == [texts[0]] + Others(Ends(texts, versions, n), texts[0])
  {
    hide EndsLine;
    if n == 1 {
      OthersOne(texts[0]);
    } else {
      ChosenIsOthers(texts, versions, n - 1);
      assert texts[n - 1] != texts[0];
      var ends, x := Ends(texts, versions, n - 1), texts[n - 1];
      OthersSnoc(ends, x, texts[0]);
      AppendAssoc([texts[0]], Others(ends, texts[0]), [x]);
      assert ends + [] == ends && Chosen(texts, versions, n - 1) + [] == Chosen(texts, versions, n - 1);
    }
  }

  lemma {:induction false} OthersOne(first: string)
    ensures Others([], first) == [] && Others([first], first) == []
  {
  }

  lemma {:induction false} OthersSnoc(list: seq<string>, x: string, first: string)
    ensures Others(list + [x], first) == Others(list, first) + (if x == first then [] else [x])
  {
    assert (list + [x])[..|list|] == list;
  }

  /** The last loop: values not selected yet are appended to the first release. */
  method Select(first: string, values: seq<string>) returns (selected: seq<string>)
    ensures selected == Dedup([first], values)
  {
    selected := [first];
    var k := 0;
    assert values[..0] == [];
    while k < |values|
      invariant 0 <= k <= |values| && selected == Dedup([first], values[..k])
    {
      DedupSnoc([first], values[..k], values[k]);
      assert values[..k + 1] == values[..k] + [values[k]];
      if values[k] !in selected {
        selected := selected + [values[k]];
      }
      k := k + 1;
    }
    assert values[..k] == values;
  }

  /** `profile_versions`, over any inventory. */
  method ProfileVersions(profile: string, texts: seq<string>) returns (r: Option<seq<string>>)
    ensures r == Profile(profile, texts)
  {
    if profile !in {"representative", "all"} || texts == [] {
      return None;
    }
    if profile == "all" {
      return Some(texts);
    }
    var versions := ParseAll(texts);
    if versions.None? {
      return None;
    }
    var latest := LatestByMinor(texts, versions.value);
    var selected := Select(texts[0], Values(latest));
    r := if |selected| < 2 then None else Some(selected);
  }

  /** `parse_version` on every release, inside the first loop. */
  method ParseAll(texts: seq<string>) returns (r: Option<seq<Version>>)
    ensures r == if Canonical(texts) then Some(VersionsOf(texts)) else None
  {
    hide ParseVersion;
    var versions: seq<Version>, k := [], 0;
    while k < |texts|
      invariant 0 <= k <= |texts| && |versions| == k
      invariant forall i :: 0 <= i < k ==> ParseVersion(texts[i]) == Some(versions[i])
    {
      var version := ParseVersion(texts[k]);
      if version.None? {
        return None;
      }
      versions, k := versions + [version.value], k + 1;
    }
    assert versions == VersionsOf(texts);
    r := Some(versions);
  }

  /** `latest_by_minor` */
  method LatestByMinor(texts: seq<string>, versions: seq<Version>) returns (latest: Latest)
    requires |texts| == |versions|
    ensures latest == Fold(texts, versions, |texts|)
  {
    hide Put, LineOf;
    latest := Latest([], map[]);
    var k := 0;
    while k < |texts|
      invariant 0 <= k <= |texts| && latest == Fold(texts, versions, k)
    {
      latest, k := Put(latest, LineOf(versions[k]), texts[k]), k + 1;
    }
  }

  lemma {:induction false} DedupDistinct(first: string, values: seq<string>)
    requires Distinct(values)
    ensures Dedup([first], values) == [first] + Others(values, first)
  {
    if values != [] {
      var front, last := values[..|values| - 1], values[|values| - 1];
      DedupDistinct(first, front);
      OthersMembers(front, first);
      assert last !in front;
      AppendAssoc([first], Others(front, first), [last]);
      assert Others(front, first) + [] == Others(front, first);
    }
  }

  lemma {:induction false} FoldTracks(texts: seq<string>, versions: seq<Version>, n: nat)
    requires |texts| == |versions| && 0 < n <= |versions| && Ascending(versions)
    ensures Tracks(Fold(texts, versions, n), texts, versions, n)
  {
    hide Tracks, Put, LineOf, Ascending;
    if n == 1 {
      TrackFirst(texts, versions);
      FoldOne(texts, versions);
    } else {
      FoldTracks(texts, versions, n - 1);
      TrackStep(Fold(texts, versions, n - 1), texts, versions, n - 1);
    }
  }

  lemma {:induction false} FoldOne(texts: seq<string>, versions: seq<Version>)
    requires |texts| == |versions| && 0 < |versions|
    ensures Fold(texts, versions, 1) == Put(Latest([], map[]), LineOf(versions[0]), texts[0])
  {
    assert Fold(texts, versions, 0) == Latest([], map[]);
  }

  lemma {:induction false} InventoryCanonical(texts: seq<string>, versions: seq<Version>)
    requires Inventory(texts, versions)
    ensures Canonical(texts) && VersionsOf(texts) == versions
  {
    hide Render, ParseVersion, Ascending;
    forall i | 0 <= i < |texts| ensures ParseVersion(texts[i]) == Some(versions[i]) {
      ParseIsRenderInverse(texts[i], versions[i]);
    }
  }

  /** In an ascending inventory the representative releases are the chosen ones. */
  lemma {:induction false} RepresentativeIsChosen(texts: seq<string>, versions: seq<Version>)
    requires Inventory(texts, versions) && texts != []
    ensures Canonical(texts) && Representative(texts) == Chosen(texts, versions, |texts|)
  {
    InventoryCanonical(texts, versions);
    FoldTracks(texts, versions, |texts|);
    TrackEnd(Fold(texts, versions, |texts|), texts, versions);
    InventoryDistinct(texts, versions);
    EndsMembers(texts, versions, |texts|);
    DedupDistinct(texts[0], Ends(texts, versions, |texts|));
    ChosenIsOthers(texts, versions, |texts|);
  }

  lemma {:induction false} TrackFirst(texts: seq<string>, versions: seq<Version>)
    requires |texts| == |versions| && texts != []
    ensures Tracks(Put(Latest([], map[]), LineOf(versions[0]), texts[0]), texts, versions, 1)
  {
  }

  lemma {:induction false} TrackEnd(latest: Latest, texts: seq<string>, versions: seq<Version>)
    requires |texts| == |versions| && texts != [] && Tracks(latest, texts, versions, |texts|)
    ensures Sound(latest) && Values(latest) == Ends(texts, versions, |texts|)
  {
  }

  /** The positions of the chosen releases. */
  function Picks(versions: seq<Version>, n: nat): seq<nat>
    requires n <= |versions|
  {
    if n == 0 then [] else Picks(versions, n - 1) + (if n == 1 || EndsLine(versions, n - 1) then [n - 1] else [])
  }

  lemma {:induction false} ChosenAt(texts: seq<string>, versions: seq<Version>, n: nat)
    requires |texts| == |versions| && n <= |versions|
    ensures |Picks(versions, n)| == |Chosen(texts, versions, n)|
    ensures forall t :: 0 <= t < |Picks(versions, n)| ==>
              Picks(versions, n)[t] < n && Chosen(texts, versions, n)[t] == texts[Picks(versions, n)[t]]
  {
    hide EndsLine;
    if n > 0 {
      ChosenAt(texts, versions, n - 1);
    }
  }

  lemma {:induction false} PicksAscend(versions: seq<Version>, n: nat)
    requires n <= |versions|
    ensures forall t :: 0 <= t < |Picks(versions, n)| ==> Picks(versions, n)[t] < n
    ensures forall t, u :: 0 <= t < u < |Picks(versions, n)| ==> Picks(versions, n)[t] < Picks(versions, n)[u]
  {
    hide EndsLine;
    if n > 0 {
      PicksAscend(versions, n - 1);
    }
  }

  lemma {:induction false} PicksMembers(versions: seq<Version>, n: nat, i: nat)
    requires Ascending(versions) && i < |versions| && n <= |versions|
    ensures i in Picks(versions, n) <==> i < n && (i == 0 || Newest(versions, i))
  {
    hide EndsLine, Newest;
    if n > 0 {
      PicksMembers(versions, n - 1, i);
      EndIsNewest(versions, n - 1);
    }
  }

  /** The representative releases are a strictly ascending selection of exactly the first
      release and the newest patch of every line. */
  lemma {:induction false} ChosenIsNewest(texts: seq<string>, versions: seq<Version>)
    requires Inventory(texts, versions)
    ensures var picks, chosen := Picks(versions, |versions|), Chosen(texts, versions, |versions|);
            && |picks| == |chosen|
            && (forall t :: 0 <= t < |picks| ==> picks[t] < |versions| && chosen[t] == Render(versions[picks[t]]))
            && (forall t, u :: 0 <= t < u < |picks| ==> Less(versions[picks[t]], versions[picks[u]]))
            && (forall i :: 0 <= i < |versions| ==> (i in picks <==> i == 0 || Newest(versions, i)))
  {
    hide Picks, Chosen, Newest, Render, Less;
    ChosenAt(texts, versions, |versions|);
    PicksAscend(versions, |versions|);
    forall i | 0 <= i < |versions| ensures i in Picks(versions, |versions|) <==> i == 0 || Newest(versions, i) {
      PicksMembers(versions, |versions|, i);
    }
  }
}
