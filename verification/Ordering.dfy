/** Lexicographic order on identifiers, and the sorted listing of a set of them. */
module Ordering {
  predicate Le(a: string, b: string)
    decreases |a|
  {
    a == [] || (b != [] && (a[0] < b[0] || (a[0] == b[0] && Le(a[1..], b[1..]))))
  }

  lemma {:induction false} LeTotal(a: string, b: string)
    ensures Le(a, b) || Le(b, a)
    decreases |a|
  {
    if a != [] && b != [] {
      LeTotal(a[1..], b[1..]);
    }
  }

  lemma {:induction false} LeAntisymmetric(a: string, b: string)
    requires Le(a, b) && Le(b, a)
    ensures a == b
    decreases |a|
  {
    if a != [] {
      LeAntisymmetric(a[1..], b[1..]);
      assert a == [a[0]] + a[1..] && b == [b[0]] + b[1..];
    }
  }

  lemma {:induction false} LeTransitive(a: string, b: string, c: string)
    requires Le(a, b) && Le(b, c)
    ensures Le(a, c)
    decreases |a|
  {
    if a != [] && a[0] == b[0] == c[0] {
      LeTransitive(a[1..], b[1..], c[1..]);
    }
  }

  /** At the first place where the two differ the smaller character comes first; a text comes before
      what it begins. */
  lemma {:induction false} LeAtFirstDifference(a: string, b: string, k: nat)
    requires k <= |a| && k <= |b| && a[..k] == b[..k]
    ensures k == |a| ==> Le(a, b)
    ensures k < |a| && k < |b| && a[k] < b[k] ==> Le(a, b) && !Le(b, a)
    decreases k
  {
    if k > 0 {
      assert a[0] == a[..k][0] == b[0];
      assert a[1..][..k-1] == a[..k][1..] == b[1..][..k-1];
      LeAtFirstDifference(a[1..], b[1..], k - 1);
    }
  }

  predicate IsLeast(m: string, s: set<string>) {
    m in s && forall x :: x in s ==> Le(m, x)
  }

  lemma {:induction false} LeastExists(s: set<string>)
    requires s != {}
    ensures exists m :: IsLeast(m, s)
    decreases |s|
  {
    var x :| x in s;
    LeTotal(x, x);
    if s == {x} {
      assert IsLeast(x, s);
    } else {
      LeastExists(s - {x});
      var m :| IsLeast(m, s - {x});
      LeTotal(m, x);
      if Le(m, x) {
        assert IsLeast(m, s);
      } else {
        forall y | y in s ensures Le(x, y) {
          if y != x { LeTransitive(x, m, y); }
        }
        assert IsLeast(x, s);
      }
    }
  }

  predicate Ascending(r: seq<string>) {
    forall i, j :: 0 <= i < j < |r| ==> Le(r[i], r[j]) && r[i] != r[j]
  }

  lemma AscendingSnoc(r: seq<string>, x: string)
    requires Ascending(r) && forall y :: y in r ==> Le(y, x) && y != x
    ensures Ascending(r + [x])
  {
  }

  /** An ascending listing of the set: each member once. */
  predicate Ranks(r: seq<string>, s: set<string>) {
    Ascending(r) && (forall x :: x in r ==> x in s) && (forall x :: x in s ==> x in r) && |r| == |s|
  }

  lemma {:induction false} RankingExists(s: set<string>)
    ensures exists r :: Ranks(r, s)
    decreases |s|
  {
    if s == {} {
      assert Ranks([], s);
    } else {
      LeastExists(s);
      var m :| IsLeast(m, s);
      RankingExists(s - {m});
      var rest :| Ranks(rest, s - {m});
      forall j | 0 <= j < |rest| ensures Le(m, rest[j]) && rest[j] != m {
        assert rest[j] in rest;
      }
      assert Ranks([m] + rest, s);
    }
  }

  lemma {:induction false} AscendingFits(r: seq<string>, s: set<string>)
    requires Ascending(r) && forall i :: 0 <= i < |r| ==> r[i] in s
    ensures |r| <= |s|
    decreases |r|
  {
    if r != [] {
      AscendingFits(r[1..], s - {r[0]});
    }
  }

  /** The set of elements of a sequence. */
  function Elems<T(==)>(s: seq<T>): set<T> {
    set x | x in s
  }

  lemma {:induction false} ElemsFit(t: seq<string>)
    ensures |Elems(t)| <= |t|
    decreases |t|
  {
    if t != [] {
      ElemsFit(t[1..]);
      assert Elems(t) == Elems(t[1..]) + {t[0]};
    }
  }

  lemma FirstIsSame(r: seq<string>, t: seq<string>)
    requires Ascending(r) && Ascending(t) && |r| == |t| > 0
    requires forall x :: x in r ==> x in t
    ensures r[0] == t[0]
  {
    if t[0] !in r {
      forall i | 0 <= i < |r| ensures r[i] in Elems(t) - {t[0]} {
        assert r[i] in r;
      }
      AscendingFits(r, Elems(t) - {t[0]});
      ElemsFit(t);
    } else {
      var i :| 0 <= i < |r| && r[i] == t[0];
      assert r[0] in r;
      var j :| 0 <= j < |t| && t[j] == r[0];
      if i > 0 && j > 0 {
        LeAntisymmetric(r[0], t[0]);
      }
    }
  }

  /** Two ascending listings with the same members are the same. */
  lemma {:induction false} RankingIsUnique(r: seq<string>, t: seq<string>)
    requires Ascending(r) && Ascending(t) && |r| == |t|
    requires forall x :: x in r ==> x in t
    ensures r == t
    decreases |r|
  {
    if r != [] {
      FirstIsSame(r, t);
      forall x | x in r[1..] ensures x in t[1..] {
        assert x in r;
        var k :| 0 <= k < |t| && t[k] == x;
        assert k > 0 ==> t[1..][k-1] == x;
      }
      RankingIsUnique(r[1..], t[1..]);
    }
  }

  /** `sorted(...)` of distinct identifiers: the one ascending listing of the set. */
  function Sorted(s: set<string>): (r: seq<string>)
    ensures Ranks(r, s)
  {
    RankingExists(s);
    assert forall r, t | Ranks(r, s) && Ranks(t, s) :: r == t by {
      forall r, t | Ranks(r, s) && Ranks(t, s) ensures r == t {
        RankingIsUnique(r, t);
      }
    }
    var r :| Ranks(r, s);
    r
  }

  /** The first position of `x`. */
  function IndexOf<T(==)>(s: seq<T>, x: T): (k: nat)
    requires x in s
    ensures k < |s| && s[k] == x && x !in s[..k]
  {
    if s[0] == x then 0 else 1 + IndexOf(s[1..], x)
  }

  function Reversed<T>(p: seq<T>): (r: seq<T>)
    ensures |r| == |p| && forall i :: 0 <= i < |p| ==> r[i] == p[|p|-1-i]
  {
    seq(|p|, i requires 0 <= i < |p| => p[|p|-1-i])
  }

  lemma ReversedSnoc<T>(p: seq<T>, x: T)
    ensures Reversed(p + [x]) == [x] + Reversed(p)
  {
  }

  ghost predicate Distinct<T>(s: seq<T>) {
    forall i, j :: 0 <= i < j < |s| ==> s[i] != s[j]
  }

  /** A sequence listing each member of the set once. */
  ghost predicate Lists<T>(r: seq<T>, s: set<T>) {
    Elems(r) == s && Distinct(r)
  }

  method AnyOrder<T(==)>(s: set<T>) returns (r: seq<T>)
    ensures Lists(r, s)
  {
    r := [];
    var todo := s;
    ghost var listed: set<T> := {};
    while todo != {}
      invariant todo !! listed && todo + listed == s && Lists(r, listed)
      decreases |todo|
    {
      var x :| x in todo;
      assert x !in Elems(r);
      r, todo, listed := r + [x], todo - {x}, listed + {x};
    }
  }

  ghost predicate TotalPreorder<T(!new)>(le: (T, T) -> bool) {
    && (forall x, y :: le(x, y) || le(y, x))
    && forall x, y, z :: le(x, y) && le(y, z) ==> le(x, z)
  }

  ghost predicate SortedBy<T>(r: seq<T>, le: (T, T) -> bool) {
    forall i, j :: 0 <= i < j < |r| ==> le(r[i], r[j])
  }

  method InsertBy<T(!new)>(r: seq<T>, x: T, le: (T, T) -> bool) returns (t: seq<T>)
    requires TotalPreorder(le) && SortedBy(r, le) && Distinct(r) && x !in r
    ensures SortedBy(t, le) && Lists(t, Elems(r) + {x})
  {
    var k := 0;
    while k < |r| && le(r[k], x)
      invariant 0 <= k <= |r|
      invariant forall i :: 0 <= i < k ==> le(r[i], x)
    {
      k := k + 1;
    }
    t := r[..k] + [x] + r[k..];
    forall y ensures y in t <==> y in Elems(r) + {x} {
      if y in r {
        var i :| 0 <= i < |r| && r[i] == y;
        assert t[if i < k then i else i + 1] == y;
      }
      if y == x { assert t[k] == x; }
    }
    forall i, j | 0 <= i < j < |t| ensures t[i] != t[j] && le(t[i], t[j]) {
      assert i != k ==> t[i] == r[if i < k then i else i - 1];
      assert j != k ==> t[j] == r[if j < k then j else j - 1];
      if i == k {
        assert le(x, r[k]) && (k == j - 1 || le(r[k], r[j-1]));
      } else if j == k {
        assert le(r[i], x);
      } else if i < k < j {
        assert le(r[i], x) && le(x, r[k]);
      }
    }
  }

  /** `sorted(s, key=...)` for the preorder the key induces. */
  method SortBy<T(==, !new)>(s: set<T>, le: (T, T) -> bool) returns (r: seq<T>)
    requires TotalPreorder(le)
    ensures SortedBy(r, le) && Lists(r, s)
  {
    r := [];
    var todo := s;
    ghost var listed: set<T> := {};
    while todo != {}
      invariant todo !! listed && todo + listed == s
      invariant SortedBy(r, le) && Lists(r, listed)
      decreases |todo|
    {
      var x :| x in todo;
      assert x !in Elems(r);
      r := InsertBy(r, x, le);
      todo, listed := todo - {x}, listed + {x};
    }
  }
}
