/** Release versions: the numbers, their order, and the canonical text form
    (scripts/openbao_ci_matrix.py, parse_version). */
module Versions {
  import opened Text

  datatype Version = Version(major: nat, minor: nat, patch: nat)

  /** Python's order on the number triples. */
  predicate Less(a: Version, b: Version) {
    || a.major < b.major
    || (a.major == b.major && a.minor < b.minor)
    || (a.major == b.major && a.minor == b.minor && a.patch < b.patch)
  }

  predicate AtMost(a: Version, b: Version) {
    a == b || Less(a, b)
  }

  ghost predicate Ascending(versions: seq<Version>) {
    forall i, j :: 0 <= i < j < |versions| ==> Less(versions[i], versions[j])
  }

  /** On an ascending list, comparing numbers is comparing positions. */
  lemma {:induction false} OrderIsPosition(versions: seq<Version>, i: nat, j: nat)
    requires Ascending(versions) && i < |versions| && j < |versions|
    ensures AtMost(versions[i], versions[j]) <==> i <= j
    ensures versions[i] == versions[j] <==> i == j
  {
    if i < j {
      assert Less(versions[i], versions[j]);
    } else if j < i {
      assert Less(versions[j], versions[i]);
    }
  }

  lemma {:induction false} AscendingDistinct(versions: seq<Version>)
    requires Ascending(versions)
    ensures Distinct(versions)
  {
  }

  // ----- Text form

  predicate IsDigit(c: char) {
    '0' <= c <= '9'
  }

  predicate AllDigits(s: string) {
    s != [] && forall i :: 0 <= i < |s| ==> IsDigit(s[i])
  }

  function DigitChar(d: nat): char
    requires d < 10
  {
    '0' + d as char
  }

  /** `str(n)` */
  function Decimal(n: nat): (s: string)
    ensures s != []
  {
    if n < 10 then [DigitChar(n)] else Decimal(n / 10) + [DigitChar(n % 10)]
  }

  /** `int(s)` for a string of digits */
  function Number(s: string): nat
    requires forall i :: 0 <= i < |s| ==> IsDigit(s[i])
  {
    if s == [] then 0
    else assert IsDigit(s[|s| - 1]); 10 * Number(s[..|s| - 1]) + (s[|s| - 1] as int - '0' as int)
  }

  lemma {:induction false} DecimalNumber(n: nat)
    ensures AllDigits(Decimal(n)) && Number(Decimal(n)) == n
  {
    if n >= 10 {
      DecimalNumber(n / 10);
      assert Decimal(n)[..|Decimal(n)| - 1] == Decimal(n / 10);
    } else {
      assert Decimal(n)[..0] == [];
    }
  }

  lemma {:induction false} NoDot(n: nat)
    ensures '.' !in Decimal(n)
  {
    DecimalNumber(n);
  }

  /** `".".join(...)`: the text of a version. */
  function Render(v: Version): string {
    Join([Decimal(v.major), Decimal(v.minor), Decimal(v.patch)], '.')
  }

  /** A component is accepted when it is ASCII digits and equal to `str(int(part))`. */
  predicate CanonicalPart(part: string) {
    AllDigits(part) && part == Decimal(Number(part))
  }

  function ParseVersion(text: string): Option<Version> {
    var parts := Split(text, '.');
    if |parts| != 3 || !CanonicalPart(parts[0]) || !CanonicalPart(parts[1]) || !CanonicalPart(parts[2])
    then None
    else Some(Version(Number(parts[0]), Number(parts[1]), Number(parts[2])))
  }

  /** The accepted texts are exactly the rendered versions, each parsed back to its own. */
  lemma {:induction false} ParseIsRenderInverse(text: string, v: Version)
    ensures ParseVersion(text) == Some(v) <==> text == Render(v)
  {
    var pieces := [Decimal(v.major), Decimal(v.minor), Decimal(v.patch)];
    DecimalNumber(v.major);
    DecimalNumber(v.minor);
    DecimalNumber(v.patch);
    forall p | p in pieces ensures '.' !in p {
      NoDot(v.major);
      NoDot(v.minor);
      NoDot(v.patch);
    }
    SplitJoin(pieces, '.');
    if ParseVersion(text) == Some(v) {
      assert Split(text, '.') == pieces;
      JoinSplit(text, '.');
    }
  }

  function Pow10(k: nat): nat {
    if k == 0 then 1 else 10 * Pow10(k - 1)
  }

  /** The digit of `n` at a place, counted from the right. */
  function DigitAt(n: nat, place: nat): nat
    decreases place
  {
    if place == 0 then n % 10 else DigitAt(n / 10, place - 1)
  }

  /** A numeral holds the digits of its number, without leading zeros. */
  lemma {:induction false} DecimalDigits(n: nat)
    ensures var s := Decimal(n);
            && (forall i :: 0 <= i < |s| ==> '0' <= s[i] <= '9' && s[i] as int - '0' as int == DigitAt(n, |s| - 1 - i))
            && n < Pow10(|s|) && (|s| > 1 ==> Pow10(|s| - 1) <= n)
  {
    if n < 10 {
      assert Pow10(1) == 10 * Pow10(0);
    } else {
      DecimalDigits(n / 10);
    }
  }

  /** The text of a version: its numbers from the first to the last, between dots. */
  lemma {:induction false} RenderText(v: Version)
    ensures Render(v) == Decimal(v.major) + "." + Decimal(v.minor) + "." + Decimal(v.patch)
    ensures Render(Version(2, 6, 4)) == "2.6.4" && Render(Version(10, 0, 12)) == "10.0.12"
  {
    var pieces := [Decimal(v.major), Decimal(v.minor), Decimal(v.patch)];
    assert pieces[1..] == [Decimal(v.minor), Decimal(v.patch)];
    assert pieces[1..][1..] == [Decimal(v.patch)];
    assert Join(pieces[1..][1..], '.') == Decimal(v.patch);
    assert Join(pieces[1..], '.') == Decimal(v.minor) + "." + Decimal(v.patch);
    AppendAssoc(Decimal(v.major) + ".", Decimal(v.minor) + ".", Decimal(v.patch));
    AppendAssoc(Decimal(v.major) + ".", Decimal(v.minor), ".");
    RenderExamples();
  }

  lemma {:induction false} RenderExamples()
    ensures Render(Version(2, 6, 4)) == "2.6.4" && Render(Version(10, 0, 12)) == "10.0.12"
  {
    assert Decimal(2) == "2" && Decimal(6) == "6" && Decimal(4) == "4" && Decimal(0) == "0" && Decimal(1) == "1";
    assert Decimal(10) == "1" + "0" && Decimal(12) == "1" + "2";
    assert ["2", "6", "4"][1..] == ["6", "4"] && ["6", "4"][1..] == ["4"];
    assert ["10", "0", "12"][1..] == ["0", "12"] && ["0", "12"][1..] == ["12"];
  }
}
