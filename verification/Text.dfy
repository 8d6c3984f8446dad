/** Sequence vocabulary shared by the models: splitting at a separator,
    flattening, searching for a fragment, and Python's `sorted` over a total order. */
module Text {

  datatype Option<+T> = None | Some(value: T)

  ghost predicate Distinct<T>(s: seq<T>) {
    forall i, j :: 0 <= i < j < |s| ==> s[i] != s[j]
  }

  function ToSet<T>(s: seq<T>): set<T> {
    set x | x in s
  }

  lemma {:induction false} DistinctSize<T>(s: seq<T>)
    requires Distinct(s)
    ensures |ToSet(s)| == |s|
  {
    if s != [] {
      var front := s[..|s| - 1];
      DistinctSize(front);
      assert s == front + [s[|s| - 1]];
      assert ToSet(s) == ToSet(front) + {s[|s| - 1]};
      assert s[|s| - 1] !in front;
    }
  }

  lemma {:induction false} SubsetSize<T>(a: set<T>, b: set<T>)
    requires a <= b
    ensures |a| <= |b|
  {
    assert b == a + (b - a);
  }

  lemma {:induction false} AppendHead<T>(a: seq<T>, b: seq<T>)
    requires a != []
    ensures (a + b)[0] == a[0] && (a + b)[1..] == a[1..] + b
  {
  }

  lemma {:induction false} AppendAssoc<T>(a: seq<T>, b: seq<T>, c: seq<T>)
    ensures a + (b + c) == a + b + c
  {
  }

  function Flatten<T>(chunks: seq<seq<T>>): seq<T> {
    if chunks == [] then [] else chunks[0] + Flatten(chunks[1..])
  }

  lemma {:induction false} FlattenAppend<T>(a: seq<seq<T>>, b: seq<seq<T>>)
    ensures Flatten(a + b) == Flatten(a) + Flatten(b)
  {
    if a == [] {
      assert a + b == b;
    } else {
      FlattenAppend(a[1..], b);
      AppendHead(a, b);
      AppendAssoc(a[0], Flatten(a[1..]), Flatten(b));
    }
  }

  lemma {:induction false} FlattenSnoc<T>(a: seq<seq<T>>, last: seq<T>)
    ensures Flatten(a + [last]) == Flatten(a) + last
  {
    FlattenAppend(a, [last]);
    assert Flatten([last]) == last;
  }

  /** `at` lists every position of every chunk once, chunk by chunk. */
  ghost predicate Places<T>(at: seq<(nat, nat)>, chunks: seq<seq<T>>) {
    && (forall n :: 0 <= n < |at| ==> at[n].0 < |chunks| && at[n].1 < |chunks[at[n].0]|)
    && (forall n, m :: 0 <= n < m < |at| ==> at[n].0 < at[m].0 || (at[n].0 == at[m].0 && at[n].1 < at[m].1))
    && (forall k, i :: 0 <= k < |chunks| && 0 <= i < |chunks[k]| ==> (k, i) in at)
  }

  /** The positions of the last chunk. */
  function LastPlaces<T>(chunks: seq<seq<T>>): seq<(nat, nat)>
    requires chunks != []
  {
    var last := |chunks| - 1;
    seq(|chunks[last]|, i requires 0 <= i < |chunks[last]| => (last, i))
  }

  lemma {:induction false} PlacesSnoc<T>(at: seq<(nat, nat)>, chunks: seq<seq<T>>)
    requires chunks != [] && Places(at, chunks[..|chunks| - 1])
    ensures Places(at + LastPlaces(chunks), chunks)
  {
    var last, here := |chunks| - 1, LastPlaces(chunks);
    forall k, i | 0 <= k < |chunks| && 0 <= i < |chunks[k]| ensures (k, i) in at + here {
      if k == last {
        assert here[i] == (k, i);
      } else {
        assert chunks[..last][k] == chunks[k];
      }
    }
  }

  /** `flat` holds the elements at these positions, in this order. */
  ghost predicate Spells<T>(at: seq<(nat, nat)>, chunks: seq<seq<T>>, flat: seq<T>) {
    && |at| == |flat|
    && forall n :: 0 <= n < |at| ==>
         at[n].0 < |chunks| && at[n].1 < |chunks[at[n].0]| && flat[n] == chunks[at[n].0][at[n].1]
  }

  lemma {:induction false} SpellsSnoc<T>(at: seq<(nat, nat)>, chunks: seq<seq<T>>, flat: seq<T>)
    requires chunks != [] && Spells(at, chunks[..|chunks| - 1], flat)
    ensures Spells(at + LastPlaces(chunks), chunks, flat + chunks[|chunks| - 1])
  {
  }

  lemma {:induction false} PlacesNone<T>()
    ensures Places<T>([], []) && Spells<T>([], [], [])
  {
  }

  lemma {:induction false} FrontLast<T>(chunks: seq<T>)
    requires chunks != []
    ensures chunks == chunks[..|chunks| - 1] + [chunks[|chunks| - 1]]
  {
  }

  /** Concatenation, by positions: every element of every chunk once, chunk by chunk. */
  lemma {:induction false} FlattenPlaces<T>(chunks: seq<seq<T>>) returns (at: seq<(nat, nat)>)
    ensures Places(at, chunks) && Spells(at, chunks, Flatten(chunks))
  {
    hide Places, Spells, Flatten, LastPlaces;
    at := [];
    if chunks == [] {
      PlacesNone<T>();
      FlattenNone<T>();
    } else {
      var front, last := chunks[..|chunks| - 1], chunks[|chunks| - 1];
      at := FlattenPlaces(front);
      FrontLast(chunks);
      FlattenSnoc(front, last);
      PlacesSnoc(at, chunks);
      SpellsSnoc(at, chunks, Flatten(front));
      at := at + LastPlaces(chunks);
    }
  }

  lemma {:induction false} FlattenNone<T>()
    ensures Flatten<T>([]) == []
  {
  }

  /** A strictly ascending list of positions is determined by its members. */
  lemma {:induction false} SameAscending(a: seq<nat>, b: seq<nat>)
    requires forall j, k :: 0 <= j < k < |a| ==> a[j] < a[k]
    requires forall j, k :: 0 <= j < k < |b| ==> b[j] < b[k]
    requires forall i :: i in a <==> i in b
    ensures a == b
  {
    assert a != [] ==> a[0] in b;
    assert b != [] ==> b[0] in a;
    if a != [] && b != [] {
      assert a[0] == b[0];
      forall i ensures i in a[1..] <==> i in b[1..] {
        assert i in a[1..] <==> i in a && i != a[0];
        assert i in b[1..] <==> i in b && i != b[0];
      }
      SameAscending(a[1..], b[1..]);
      assert a == [a[0]] + a[1..] && b == [b[0]] + b[1..];
    }
  }

  lemma {:induction false} OneEntry(at: seq<nat>, i: nat)
    requires forall j, k :: 0 <= j < k < |at| ==> at[j] < at[k]
    requires i in at && forall k :: 0 <= k < |at| ==> at[k] == i
    ensures at == [i]
  {
    var n := |at| - 1;
    assert at[0] == i && at[n] == i;
  }

  /** `bytes.split(sep)` / `str.split(sep)` for a one-element separator. */
  function Split<T(==)>(s: seq<T>, sep: T): (pieces: seq<seq<T>>)
    ensures |pieces| >= 1
  {
    if s == [] then [[]]
    else
      var rest := Split(s[1..], sep);
      if s[0] == sep then [[]] + rest else [[s[0]] + rest[0]] + rest[1..]
  }

  lemma {:induction false} SplitPieces<T>(s: seq<T>, sep: T)
    ensures forall i :: 0 <= i < |Split(s, sep)| ==> sep !in Split(s, sep)[i]
  {
    if s != [] {
      SplitPieces(s[1..], sep);
    }
  }

  /** Everything before the last separator, cut into its pieces. */
  function Lines<T(==)>(s: seq<T>, sep: T): seq<seq<T>> {
    var pieces := Split(s, sep);
    pieces[..|pieces| - 1]
  }

  /** What follows the last separator. */
  function Tail<T(==)>(s: seq<T>, sep: T): seq<T> {
    var pieces := Split(s, sep);
    pieces[|pieces| - 1]
  }

  lemma {:induction false} SplitWithout<T>(s: seq<T>, sep: T)
    requires sep !in s
    ensures Split(s, sep) == [s]
  {
    if s != [] {
      SplitWithout(s[1..], sep);
      assert s == [s[0]] + s[1..];
    }
  }

  /** The pieces of a concatenation: the last of `x` and the first of `y` fuse. */
  function Glue<T>(x: seq<seq<T>>, y: seq<seq<T>>): seq<seq<T>>
    requires |x| >= 1 && |y| >= 1
  {
    x[..|x| - 1] + [x[|x| - 1] + y[0]] + y[1..]
  }

  lemma {:induction false} GlueHead<T>(h: T, x: seq<seq<T>>, y: seq<seq<T>>)
    requires |x| >= 1 && |y| >= 1
    ensures Glue([[h] + x[0]] + x[1..], y) == [[h] + Glue(x, y)[0]] + Glue(x, y)[1..]
  {
    if |x| == 1 {
      assert [h] + (x[0] + y[0]) == [h] + x[0] + y[0];
    }
  }

  lemma {:induction false} GlueCut<T>(x: seq<seq<T>>, y: seq<seq<T>>)
    requires |x| >= 1 && |y| >= 1
    ensures Glue([[]] + x, y) == [[]] + Glue(x, y)
    ensures Glue([[]], y) == y
  {
    assert [] + y[0] == y[0];
  }

  lemma {:induction false} SplitAppend<T>(a: seq<T>, b: seq<T>, sep: T)
    ensures Split(a + b, sep) == Glue(Split(a, sep), Split(b, sep))
  {
    var y := Split(b, sep);
    if a == [] {
      assert a + b == b;
      GlueCut(y, y);
    } else {
      var x := Split(a[1..], sep);
      SplitAppend(a[1..], b, sep);
      AppendHead(a, b);
      GlueHead(a[0], x, y);
      GlueCut(x, y);
    }
  }

  lemma {:induction false} GlueLast<T>(x: seq<seq<T>>, y: seq<seq<T>>)
    requires |x| >= 1 && |y| >= 1
    ensures var n := |x| - 1; Glue(x, y) == x[..n] + Glue([x[n]], y)
  {
  }

  lemma {:induction false} DropLast<T>(x: seq<T>, y: seq<T>)
    requires |y| >= 1
    ensures (x + y)[..|x + y| - 1] == x + y[..|y| - 1]
    ensures (x + y)[|x + y| - 1] == y[|y| - 1]
  {
  }

  lemma {:induction false} LinesAppend<T>(a: seq<T>, b: seq<T>, sep: T)
    ensures Lines(a + b, sep) == Lines(a, sep) + Lines(Tail(a, sep) + b, sep)
    ensures Tail(a + b, sep) == Tail(Tail(a, sep) + b, sep)
  {
    var t := Tail(a, sep);
    SplitAppend(a, b, sep);
    SplitPieces(a, sep);
    SplitWithout(t, sep);
    SplitAppend(t, b, sep);
    GlueLast(Split(a, sep), Split(b, sep));
    DropLast(Lines(a, sep), Split(t + b, sep));
  }

  /** `partition(sep)`: the part before the first separator is the first piece,
      and the pieces of the rest are the remaining ones. */
  lemma {:induction false} SplitFirst<T>(line: seq<T>, rest: seq<T>, sep: T)
    requires sep !in line
    ensures Split(line + [sep] + rest, sep) == [line] + Split(rest, sep)
  {
    SplitWithout(line, sep);
    SplitAppend(line, [sep] + rest, sep);
    AppendHead([sep], rest);
    assert [sep][1..] + rest == rest;
    AppendAssoc(line, [sep], rest);
    assert line + [] == line;
  }

  /** Pieces without the separator survive being joined and split again. */
  function Join<T>(pieces: seq<seq<T>>, sep: T): seq<T>
    requires pieces != []
  {
    if |pieces| == 1 then pieces[0] else pieces[0] + [sep] + Join(pieces[1..], sep)
  }

  lemma {:induction false} SplitJoin<T>(pieces: seq<seq<T>>, sep: T)
    requires pieces != []
    requires forall p :: p in pieces ==> sep !in p
    ensures Split(Join(pieces, sep), sep) == pieces
  {
    if |pieces| == 1 {
      SplitWithout(pieces[0], sep);
    } else {
      SplitJoin(pieces[1..], sep);
      SplitFirst(pieces[0], Join(pieces[1..], sep), sep);
    }
  }

  lemma {:induction false} JoinSplit<T>(s: seq<T>, sep: T)
    ensures Join(Split(s, sep), sep) == s
  {
    if s != [] {
      JoinSplit(s[1..], sep);
      var rest := Split(s[1..], sep);
      if s[0] == sep {
        assert ([[]] + rest)[1..] == rest;
      } else {
        assert ([[s[0]] + rest[0]] + rest[1..])[1..] == rest[1..];
        assert s == [s[0]] + s[1..];
      }
    }
  }

  function Filter<T>(s: seq<T>, keep: T -> bool): seq<T> {
    if s == [] then []
    else (if keep(s[0]) then [s[0]] else []) + Filter(s[1..], keep)
  }

  lemma {:induction false} FilterAppend<T>(a: seq<T>, b: seq<T>, keep: T -> bool)
    ensures Filter(a + b, keep) == Filter(a, keep) + Filter(b, keep)
  {
    if a == [] {
      assert a + b == b;
    } else {
      FilterAppend(a[1..], b, keep);
      AppendHead(a, b);
      AppendAssoc(if keep(a[0]) then [a[0]] else [], Filter(a[1..], keep), Filter(b, keep));
    }
  }

  lemma {:induction false} FilterMembers<T>(s: seq<T>, keep: T -> bool)
    ensures forall x :: x in Filter(s, keep) <==> x in s && keep(x)
  {
    if s != [] {
      FilterMembers(s[1..], keep);
    }
  }

  function StartsWith<T(==)>(s: seq<T>, prefix: seq<T>): bool {
    |prefix| <= |s| && s[..|prefix|] == prefix
  }

  /** First index at which `part` occurs, as `bytes.find`; None when absent. */
  function Find<T(==)>(s: seq<T>, part: seq<T>): (r: Option<nat>)
    ensures r.Some? ==> r.value + |part| <= |s|
  {
    if StartsWith(s, part) then Some(0)
    else if s == [] then None
    else
      var rest := Find(s[1..], part);
      if rest.Some? then Some(rest.value + 1) else None
  }

  lemma {:induction false} FindFirst<T>(s: seq<T>, part: seq<T>)
    ensures var r := Find(s, part);
            forall i :: 0 <= i <= |s| ==>
              (r.None? || i < r.value ==> !StartsWith(s[i..], part)) &&
              (r == Some(i) ==> StartsWith(s[i..], part))
  {
    assert s[0..] == s;
    if !StartsWith(s, part) && s != [] {
      FindFirst(s[1..], part);
      forall i | 0 < i <= |s| ensures s[i..] == s[1..][i - 1..] {}
    }
  }
}

/** Python's `sorted`, as an insertion sort over a strict total order. */
module Sorting {
  import opened Text

  ghost predicate StrictTotal<T(!new)>(lt: (T, T) -> bool) {
    && (forall a :: !lt(a, a))
    && (forall a, b, c :: lt(a, b) && lt(b, c) ==> lt(a, c))
    && (forall a, b :: a != b ==> lt(a, b) || lt(b, a))
  }

  ghost predicate StrictlySorted<T>(s: seq<T>, lt: (T, T) -> bool) {
    forall i, j :: 0 <= i < j < |s| ==> lt(s[i], s[j])
  }

  function Insert<T(==)>(x: T, s: seq<T>, lt: (T, T) -> bool): seq<T> {
    if s == [] then [x]
    else if x == s[0] then s
    else if lt(x, s[0]) then [x] + s
    else [s[0]] + Insert(x, s[1..], lt)
  }

  /** `sorted(set(s))`. */
  function SortedSet<T(==)>(s: seq<T>, lt: (T, T) -> bool): seq<T> {
    if s == [] then [] else Insert(s[0], SortedSet(s[1..], lt), lt)
  }

  lemma {:induction false} ToSetCons<T>(x: T, s: seq<T>)
    ensures ToSet([x] + s) == {x} + ToSet(s)
  {
  }

  lemma {:induction false} ConsSorted<T>(x: T, s: seq<T>, lt: (T, T) -> bool)
    requires StrictlySorted(s, lt) && forall y :: y in s ==> lt(x, y)
    ensures StrictlySorted([x] + s, lt)
  {
    forall i, j | 0 <= i < j < |s| + 1 ensures lt(([x] + s)[i], ([x] + s)[j]) {
      assert s[j - 1] in s;
    }
  }

  lemma {:induction false} BelowAll<T(!new)>(x: T, s: seq<T>, lt: (T, T) -> bool)
    requires StrictTotal(lt) && StrictlySorted(s, lt)
    requires s != [] && lt(x, s[0])
    ensures forall y :: y in s ==> lt(x, y)
  {
    forall y | y in s ensures lt(x, y) {
      var i :| 0 <= i < |s| && s[i] == y;
    }
  }

  lemma {:induction false} InsertSorted<T(!new)>(x: T, s: seq<T>, lt: (T, T) -> bool)
    requires StrictTotal(lt) && StrictlySorted(s, lt)
    ensures StrictlySorted(Insert(x, s, lt), lt)
    ensures ToSet(Insert(x, s, lt)) == ToSet(s) + {x}
    decreases |s|, 1
  {
    if s == [] {
    } else if x == s[0] {
    } else if lt(x, s[0]) {
      BelowAll(x, s, lt);
      ConsSorted(x, s, lt);
      ToSetCons(x, s);
    } else {
      InsertRest(x, s, lt);
    }
  }

  lemma {:induction false} InsertRest<T(!new)>(x: T, s: seq<T>, lt: (T, T) -> bool)
    requires StrictTotal(lt) && StrictlySorted(s, lt)
    requires s != [] && lt(s[0], x)
    ensures StrictlySorted([s[0]] + Insert(x, s[1..], lt), lt)
    ensures ToSet([s[0]] + Insert(x, s[1..], lt)) == ToSet(s) + {x}
    decreases |s|, 0
  {
    var head, rest := s[0], Insert(x, s[1..], lt);
    InsertSorted(x, s[1..], lt);
    assert s == [head] + s[1..];
    ToSetCons(head, s[1..]);
    ToSetCons(head, rest);
    forall y | y in rest ensures lt(head, y) {
      assert y in ToSet(rest);
    }
    ConsSorted(head, rest, lt);
  }

  lemma {:induction false} SortedSetSorted<T(!new)>(s: seq<T>, lt: (T, T) -> bool)
    requires StrictTotal(lt)
    ensures StrictlySorted(SortedSet(s, lt), lt)
    ensures ToSet(SortedSet(s, lt)) == ToSet(s)
  {
    if s != [] {
      SortedSetSorted(s[1..], lt);
      InsertSorted(s[0], SortedSet(s[1..], lt), lt);
      assert s == [s[0]] + s[1..];
    }
  }

  /** A strictly sorted list is determined by its elements. */
  lemma {:induction false} SortedUnique<T(!new)>(a: seq<T>, b: seq<T>, lt: (T, T) -> bool)
    requires StrictTotal(lt) && StrictlySorted(a, lt) && StrictlySorted(b, lt)
    requires ToSet(a) == ToSet(b)
    ensures a == b
  {
    assert a != [] ==> a[0] in ToSet(b);
    assert b != [] ==> b[0] in ToSet(a);
    if a == [] || b == [] {
    } else {
      assert a[0] == b[0];
      forall x ensures x in ToSet(a[1..]) <==> x in ToSet(b[1..]) {
        assert x in a[1..] <==> x in ToSet(a) && x != a[0];
        assert x in b[1..] <==> x in ToSet(b) && x != b[0];
      }
      SortedUnique(a[1..], b[1..], lt);
      assert a == [a[0]] + a[1..] && b == [b[0]] + b[1..];
    }
  }

  /** `s == sorted(set(s))` says that `s` is strictly sorted. */
  lemma {:induction false} OwnSort<T(!new)>(s: seq<T>, lt: (T, T) -> bool)
    requires StrictTotal(lt)
    ensures s == SortedSet(s, lt) <==> StrictlySorted(s, lt)
  {
    SortedSetSorted(s, lt);
    if StrictlySorted(s, lt) {
      SortedUnique(s, SortedSet(s, lt), lt);
    }
  }

  /** Python's order on strings: by code point, a proper prefix first. */
  predicate StringLess(a: string, b: string) {
    if b == [] then false
    else if a == [] then true
    else a[0] < b[0] || (a[0] == b[0] && StringLess(a[1..], b[1..]))
  }

  /** The strings agree up to some position, where the smaller one ends or has the smaller
      character. */
  lemma {:induction false} StringLessIs(a: string, b: string)
    ensures StringLess(a, b) <==>
              exists k :: 0 <= k < |b| && k <= |a| && a[..k] == b[..k] && (k == |a| || a[k] < b[k])
  {
    if a != [] && b != [] {
      StringLessIs(a[1..], b[1..]);
      if StringLess(a, b) {
        if a[0] < b[0] {
          assert a[..0] == b[..0];
        } else {
          var k :| 0 <= k < |b[1..]| && k <= |a[1..]| && a[1..][..k] == b[1..][..k]
                   && (k == |a[1..]| || a[1..][k] < b[1..][k]);
          assert a[..k + 1] == [a[0]] + a[1..][..k] && b[..k + 1] == [b[0]] + b[1..][..k];
        }
      }
      if k :| 0 <= k < |b| && k <= |a| && a[..k] == b[..k] && (k == |a| || a[k] < b[k]) {
        if k > 0 {
          assert a[..k][0] == a[0] && b[..k][0] == b[0];
          assert a[1..][..k - 1] == a[..k][1..] && b[1..][..k - 1] == b[..k][1..];
        }
      }
    } else if a == [] && b != [] {
      assert a[..0] == b[..0];
    }
  }

  lemma {:induction false} StringLessIrreflexive(a: string)
    ensures !StringLess(a, a)
  {
    if a != [] { StringLessIrreflexive(a[1..]); }
  }

  lemma {:induction false} StringLessTransitive(a: string, b: string, c: string)
    requires StringLess(a, b) && StringLess(b, c)
    ensures StringLess(a, c)
  {
    if a != [] && a[0] == b[0] && b[0] == c[0] {
      StringLessTransitive(a[1..], b[1..], c[1..]);
    }
  }

  lemma {:induction false} StringLessTotal(a: string, b: string)
    ensures a == b || StringLess(a, b) || StringLess(b, a)
  {
    if a != [] && b != [] && a[0] == b[0] {
      StringLessTotal(a[1..], b[1..]);
      assert a == [a[0]] + a[1..] && b == [b[0]] + b[1..];
    }
  }

  lemma {:induction false} StringOrder()
    ensures StrictTotal(StringLess)
  {
    forall a ensures !StringLess(a, a) { StringLessIrreflexive(a); }
    forall a, b, c | StringLess(a, b) && StringLess(b, c) ensures StringLess(a, c) {
      StringLessTransitive(a, b, c);
    }
    forall a: string, b: string | a != b ensures StringLess(a, b) || StringLess(b, a) {
      StringLessTotal(a, b);
    }
  }
}
