/** Version labels of a library: normalization, the numeric sort key, and listings by key. */
module Versions {
  import opened Domain
  import opened Ordering
  import opened Text

  type Key = (nat, nat, nat)

  /** `v` is prefixed unless it is there already. */
  function NormalizeVersion(version: string): (r: string)
    ensures r != [] && r[0] == 'v'
  {
    var cleaned := Strip(version);
    if cleaned != [] && cleaned[0] == 'v' then cleaned else "v" + cleaned
  }

  function DropLeadingV(s: string): string {
    if s != [] && s[0] == 'v' then DropLeadingV(s[1..]) else s
  }

  /** The numeric triple before the first dash; None where the source raises ValueError. */
  function NumericKey(version: string): Option<Key> {
    var core := SplitOn(version, '-')[0];
    var parts := SplitOn(core, '.');
    if |parts| == 3 && AllDigits(parts[0]) && AllDigits(parts[1]) && AllDigits(parts[2])
    then Some((ToNat(parts[0]), ToNat(parts[1]), ToNat(parts[2])))
    else None
  }

  function SemverKey(version: string): Option<Key> {
    NumericKey(DropLeadingV(version))
  }

  /** Keys are compared number by number. */
  predicate KeyLe(a: Key, b: Key) {
    a.0 < b.0 || (a.0 == b.0 && (a.1 < b.1 || (a.1 == b.1 && a.2 <= b.2)))
  }

  predicate Keyed(version: string) {
    SemverKey(version).Some?
  }

  // ----- validated versions -----

  predicate IsIdent(c: char) {
    IsDigit(c) || 'A' <= c <= 'Z' || 'a' <= c <= 'z' || c == '.' || c == '-'
  }

  predicate Numeral(s: string) {
    AllDigits(s) && (s[0] == '0' ==> s == "0")
  }

  /** Nothing, or a mark and at least one identifier character. */
  predicate Suffix(mark: char, s: string) {
    s == "" || (s[0] == mark && |s| > 1 && forall i :: 1 <= i < |s| ==> IsIdent(s[i]))
  }

  /** The parts of a version as the models validate it: three numerals, a pre-release, and build
      metadata, the last two with their marks. */
  datatype SemVer = SemVer(major: string, minor: string, patch: string, pre: string, build: string)
  {
    function Core(): string {
      major + ['.'] + (minor + ['.'] + patch)
    }

    predicate Writes(version: string) {
      && Numeral(major) && Numeral(minor) && Numeral(patch) && Suffix('-', pre) && Suffix('+', build)
      && version == Core() + (pre + build)
    }
  }

  ghost predicate IsSemVer(version: string) {
    exists s: SemVer :: s.Writes(version)
  }

  /** A plus stands before the first dash. */
  ghost predicate BuildFirst(version: string) {
    exists i :: 0 <= i < |version| && version[i] == '+' && '-' !in version[..i]
  }

  lemma DigitsAreNoMarks(s: string)
    requires AllDigits(s)
    ensures '.' !in s && '-' !in s && '+' !in s && 'v' !in s && NoSpace(s)
  {
  }

  lemma CoreIsUnmarked(s: SemVer, version: string)
    requires s.Writes(version)
    ensures '-' !in s.Core() && '+' !in s.Core() && s.Core() != "" && IsDigit(s.Core()[0]) && IsDigit(s.Core()[|s.Core()|-1])
  {
    DigitsAreNoMarks(s.major);
    DigitsAreNoMarks(s.minor);
    DigitsAreNoMarks(s.patch);
    assert s.Core()[0] == s.major[0] && s.Core()[|s.Core()|-1] == s.patch[|s.patch|-1];
  }

  /** Such a version has no space around it and no `v` in front. */
  lemma SemVerStands(s: SemVer, version: string)
    requires s.Writes(version)
    ensures version != "" && Strip(version) == version && version[0] != 'v'
    ensures NormalizeVersion(version) == "v" + version && DropLeadingV("v" + version) == version
  {
    CoreIsUnmarked(s, version);
    var tail := s.pre + s.build;
    assert tail != "" ==> version[|version|-1] == tail[|tail|-1];
    StripNothing(version);
    assert ("v" + version)[1..] == version;
  }

  lemma DottedHasKey(major: string, minor: string, patch: string)
    requires AllDigits(major) && AllDigits(minor)
    ensures SplitOn(major + ['.'] + (minor + ['.'] + patch), '.') == [major, minor] + SplitOn(patch, '.')
  {
    DigitsAreNoMarks(major);
    DigitsAreNoMarks(minor);
    SplitFirst(major, '.', minor + ['.'] + patch);
    SplitFirst(minor, '.', patch);
  }

  /** What stands before the first dash: the numerals, or the numerals and the build up to its dash. */
  lemma BeforeDash(s: SemVer, version: string)
    requires s.Writes(version)
    ensures s.pre != "" || s.build == "" ==> SplitOn(version, '-')[0] == s.Core()
    ensures s.pre == "" && s.build != "" ==> exists t :: SplitOn(version, '-')[0] == s.Core() + (['+'] + t)
  {
    CoreIsUnmarked(s, version);
    SplitAhead(s.Core(), s.pre + s.build, '-');
    if s.pre != "" {
      assert (s.pre + s.build)[0] == '-';
      assert s.Core() + [] == s.Core();
    } else if s.build != "" {
      assert s.pre + s.build == ['+'] + s.build[1..];
      SplitAhead(['+'], s.build[1..], '-');
    } else {
      assert s.Core() + "" == s.Core();
    }
  }

  lemma PlusIsNoNumeral(s: SemVer, t: string)
    requires Numeral(s.major) && Numeral(s.minor) && Numeral(s.patch)
    ensures var parts := SplitOn(s.Core() + (['+'] + t), '.');
            |parts| >= 3 && |parts[2]| > |s.patch| && parts[2][|s.patch|] == '+'
  {
    var patch := s.patch + (['+'] + t);
    assert s.Core() + (['+'] + t) == s.major + ['.'] + (s.minor + ['.'] + patch);
    DottedHasKey(s.major, s.minor, patch);
    DigitsAreNoMarks(s.patch);
    SplitAhead(s.patch + ['+'], t, '.');
    assert patch == s.patch + ['+'] + t;
  }

  /** The key is the numeric triple, unless build metadata follows it at once. */
  lemma SemVerHasKey(s: SemVer, version: string)
    requires s.Writes(version)
    ensures NumericKey(version) ==
            if s.pre == "" && s.build != "" then None else Some((ToNat(s.major), ToNat(s.minor), ToNat(s.patch)))
  {
    BeforeDash(s, version);
    if s.pre == "" && s.build != "" {
      var t :| SplitOn(version, '-')[0] == s.Core() + (['+'] + t);
      PlusIsNoNumeral(s, t);
    } else {
      DigitsAreNoMarks(s.patch);
      DottedHasKey(s.major, s.minor, s.patch);
      SplitNothing(s.patch, '.');
    }
  }

  lemma DashComesFirst(version: string, n: nat, i: nat)
    requires n < i < |version| && version[n] == '-'
    ensures '-' in version[..i]
  {
    assert version[..i][n] == '-';
  }

  lemma BuildFirstIsNoPre(s: SemVer, version: string)
    requires s.Writes(version)
    ensures BuildFirst(version) <==> s.pre == "" && s.build != ""
  {
    CoreIsUnmarked(s, version);
    var n := |s.Core()|;
    if s.pre != "" {
      forall i | 0 <= i < |version| && version[i] == '+' ensures '-' in version[..i] {
        DashComesFirst(version, n, i);
      }
    } else if s.build != "" {
      assert version[n] == '+' && version[..n] == s.Core();
    }
  }

  lemma {:induction false} DecimalHasNoLeadingZero(n: nat)
    ensures Decimal(n)[0] == '0' ==> n == 0 && Decimal(n) == "0"
    decreases n
  {
    if n >= 10 {
      DecimalHasNoLeadingZero(n / 10);
    }
  }

  lemma DecimalIsNumeral(n: nat)
    ensures Numeral(Decimal(n)) && ToNat(Decimal(n)) == n
  {
    DecimalValue(n);
    DecimalHasNoLeadingZero(n);
  }

  /** The version of three numbers. */
  function Dotted(major: nat, minor: nat, patch: nat): string {
    Decimal(major) + ['.'] + (Decimal(minor) + ['.'] + Decimal(patch))
  }

  /** Such a version is valid, stands under its own name, and has its numbers for its key. */
  lemma DottedHasItsKey(major: nat, minor: nat, patch: nat)
    ensures var version := Dotted(major, minor, patch);
            && IsSemVer(version) && SemverKey(NormalizeVersion(version)) == Some((major, minor, patch))
            && NormalizeVersion(version) == "v" + version && NormalizeVersion("v" + version) == "v" + version
  {
    var s := SemVer(Decimal(major), Decimal(minor), Decimal(patch), "", "");
    DecimalIsNumeral(major);
    DecimalIsNumeral(minor);
    DecimalIsNumeral(patch);
    assert s.Core() + ("" + "") == s.Core();
    assert s.Writes(s.Core());
    SemVerStands(s, s.Core());
    SemVerHasKey(s, s.Core());
    StripNothing("v" + s.Core());
  }

  lemma NineAndTen()
    ensures Dotted(1, 9, 0) == "1.9.0" && Dotted(1, 10, 0) == "1.10.0"
  {
    assert Decimal(10) == Decimal(1) + ['0'] == "10";
  }

  lemma OneDigit(c: char)
    requires IsDigit(c)
    ensures Numeral([c]) && ToNat([c]) == c as int - '0' as int
  {
    assert [c][..0] == [];
  }

  /** An input: build metadata alone leaves a version without a key. */
  lemma BuildAloneHasNoKey()
    ensures IsSemVer("1.0.0+b") && BuildFirst("1.0.0+b") && NumericKey("1.0.0+b").None?
  {
    var s := SemVer("1", "0", "0", "", "+b");
    OneDigit('0');
    OneDigit('1');
    assert s.Core() == "1.0.0";
    assert s.Writes("1.0.0+b");
    SemVerHasKey(s, "1.0.0+b");
    BuildFirstIsNoPre(s, "1.0.0+b");
  }

  /** The pre-release has no part in the key: versions with the same numerals share it. */
  lemma KeyIsTheNumerals(s: SemVer, version: string)
    requires s.Writes(version) && !BuildFirst(version)
    ensures SemverKey(NormalizeVersion(version)) == Some((ToNat(s.major), ToNat(s.minor), ToNat(s.patch)))
  {
    SemVerStands(s, version);
    BuildFirstIsNoPre(s, version);
    SemVerHasKey(s, version);
  }

  /** Behind a pre-release it leaves the key of the numerals. */
  lemma BuildBehindPreHasKey()
    ensures IsSemVer("1.0.0-r+b") && NumericKey("1.0.0-r+b") == Some((1, 0, 0))
  {
    var s := SemVer("1", "0", "0", "-r", "+b");
    OneDigit('0');
    OneDigit('1');
    assert s.Core() == "1.0.0";
    assert s.Writes("1.0.0-r+b");
    SemVerHasKey(s, "1.0.0-r+b");
  }

  // ----- listings -----

  /** A listing of `s` in key order; versions sharing a key may stand in either order. */
  ghost predicate ListedByKey(r: seq<string>, s: set<string>, key: map<string, Key>) {
    && Elems(r) == s <= key.Keys && Distinct(r)
    && forall i, j :: 0 <= i < j < |r| ==> KeyLe(key[r[i]], key[r[j]])
  }

  method Position(r: seq<string>, v: string, key: map<string, Key>) returns (k: nat)
    requires Elems(r) + {v} <= key.Keys
    ensures k <= |r| && forall i :: 0 <= i < k ==> KeyLe(key[r[i]], key[v])
    ensures k < |r| ==> !KeyLe(key[r[k]], key[v])
  {
    k := 0;
    while k < |r| && KeyLe(key[r[k]], key[v])
      invariant 0 <= k <= |r|
      invariant forall i :: 0 <= i < k ==> KeyLe(key[r[i]], key[v])
    {
      k := k + 1;
    }
  }

  lemma Inserted(r: seq<string>, s: set<string>, v: string, k: nat, key: map<string, Key>)
    requires ListedByKey(r, s, key) && v !in s && v in key && k <= |r|
    requires forall i :: 0 <= i < k ==> KeyLe(key[r[i]], key[v])
    requires k < |r| ==> !KeyLe(key[r[k]], key[v])
    ensures ListedByKey(r[..k] + [v] + r[k..], s + {v}, key)
  {
    var t := r[..k] + [v] + r[k..];
    forall x ensures x in t <==> x in s + {v} {
      if x in r {
        var i :| 0 <= i < |r| && r[i] == x;
        assert t[if i < k then i else i + 1] == x;
      }
      if x == v {
        assert t[k] == v;
      }
    }
    forall i, j | 0 <= i < j < |t| ensures t[i] != t[j] && KeyLe(key[t[i]], key[t[j]]) {
      assert i != k ==> t[i] == r[if i < k then i else i - 1];
      assert j != k ==> t[j] == r[if j < k then j else j - 1];
      if i == k {
        assert k == j - 1 || KeyLe(key[r[k]], key[r[j-1]]);
      }
    }
  }

  lemma TwoAreListed(v: string, w: string, key: map<string, Key>)
    requires v != w && v in key && w in key && key[v] == key[w]
    ensures ListedByKey([v, w], {v, w}, key)
  {
    assert Elems([v, w]) == {v, w};
  }

  /** `sorted(versions, key=...)`, by insertion. */
  method ListByKey(s: set<string>, key: map<string, Key>) returns (r: seq<string>)
    requires s <= key.Keys
    ensures ListedByKey(r, s, key)
    ensures forall i, j :: 0 <= i < j < |r| ==>
              var a, b := key[r[i]], key[r[j]];
              a.0 <= b.0 && (a.0 == b.0 ==> a.1 <= b.1 && (a.1 == b.1 ==> a.2 <= b.2))
  {
    r := [];
    var todo := s;
    ghost var listed: set<string> := {};
    while todo != {}
      invariant listed !! todo && listed + todo == s
      invariant ListedByKey(r, listed, key)
      decreases |todo|
    {
      var v :| v in todo;
      var k := Position(r, v, key);
      Inserted(r, listed, v, k, key);
      r, todo, listed := r[..k] + [v] + r[k..], todo - {v}, listed + {v};
    }
  }
}
