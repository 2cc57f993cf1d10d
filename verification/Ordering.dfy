/** Orders and sorting: the byte order of identifiers, a stable sort by a
    comparison, and the facts about them the other modules rest on. */
module Ordering {

  /** Lexicographic order of strings, the order of `sort.Strings`. */
  predicate StrLe(a: string, b: string) {
    if a == "" then true
    else if b == "" then false
    else if a[0] != b[0] then a[0] < b[0]
    else StrLe(a[1..], b[1..])
  }

  predicate DiffersAt(a: string, b: string, k: nat) {
    k < |a| && k < |b| && a[..k] == b[..k] && a[k] < b[k]
  }

  lemma DiffersInTail(a: string, b: string, k: nat)
    requires a != "" && b != "" && a[0] == b[0]
    ensures DiffersAt(a, b, k + 1) <==> DiffersAt(a[1..], b[1..], k)
    ensures !DiffersAt(a, b, 0)
  {
    if k < |a| - 1 && k < |b| - 1 {
      assert a[..k + 1] == [a[0]] + a[1..][..k] && b[..k + 1] == [b[0]] + b[1..][..k];
      assert a[1..][..k] == a[..k + 1][1..] && b[1..][..k] == b[..k + 1][1..];
    }
  }

  /** A string comes before another exactly when it is the beginning of the other,
      or has the smaller character where the two first differ. */
  lemma {:induction false} StrLeIsLexicographic(a: string, b: string)
    ensures StrLe(a, b) <==> a <= b || exists k: nat :: DiffersAt(a, b, k)
  {
    if a != "" && b != "" {
      var r, t := a[1..], b[1..];
      assert a == [a[0]] + r && b == [b[0]] + t;
      if a[0] == b[0] {
        StrLeIsLexicographic(r, t);
        assert a <= b <==> r <= t;
        if k: nat :| DiffersAt(r, t, k) {
          DiffersInTail(a, b, k);
        }
        if k: nat :| DiffersAt(a, b, k) {
          DiffersInTail(a, b, if k > 0 then k - 1 else 0);
        }
      } else {
        assert a[0] < b[0] ==> DiffersAt(a, b, 0);
        assert forall k: nat :: DiffersAt(a, b, k) ==> k == 0 || a[..k][0] == b[..k][0];
      }
    }
  }

  lemma {:induction false} StrLeTotal(a: string, b: string)
    ensures StrLe(a, b) || StrLe(b, a)
  {
    if a != "" && b != "" && a[0] == b[0] {
      StrLeTotal(a[1..], b[1..]);
    }
  }

  lemma {:induction false} StrLeAntisymmetric(a: string, b: string)
    requires StrLe(a, b) && StrLe(b, a)
    ensures a == b
  {
    if a != "" && b != "" {
      StrLeAntisymmetric(a[1..], b[1..]);
      assert a == [a[0]] + a[1..] && b == [b[0]] + b[1..];
    }
  }

  lemma {:induction false} StrLeTransitive(a: string, b: string, c: string)
    requires StrLe(a, b) && StrLe(b, c)
    ensures StrLe(a, c)
  {
    if a != "" && b != "" && c != "" && a[0] == b[0] == c[0] {
      StrLeTransitive(a[1..], b[1..], c[1..]);
    }
  }

  ghost predicate TotalPreorder<T(!new)>(le: (T, T) -> bool) {
    && (forall x, y :: le(x, y) || le(y, x))
    && (forall x, y, z :: le(x, y) && le(y, z) ==> le(x, z))
  }

  ghost predicate Antisymmetric<T(!new)>(le: (T, T) -> bool) {
    forall x, y :: le(x, y) && le(y, x) ==> x == y
  }

  predicate Sorted<T>(le: (T, T) -> bool, s: seq<T>) {
    forall i, j :: 0 <= i < j < |s| ==> le(s[i], s[j])
  }

  predicate Distinct<T(==)>(s: seq<T>) {
    forall i, j :: 0 <= i < j < |s| ==> s[i] != s[j]
  }

  function Insert<T>(le: (T, T) -> bool, x: T, s: seq<T>): seq<T> {
    if s == [] then [x]
    else if le(x, s[0]) then [x] + s
    else [s[0]] + Insert(le, x, s[1..])
  }

  /** The library sort: stable insertion sort by `le`. */
  function SortBy<T>(le: (T, T) -> bool, s: seq<T>): seq<T> {
    if s == [] then [] else Insert(le, s[0], SortBy(le, s[1..]))
  }

  lemma {:induction false} InsertMultiset<T>(le: (T, T) -> bool, x: T, s: seq<T>)
    ensures multiset(Insert(le, x, s)) == multiset([x]) + multiset(s)
  {
    if s != [] && !le(x, s[0]) {
      InsertMultiset(le, x, s[1..]);
      assert s == [s[0]] + s[1..];
    }
  }

  lemma {:induction false} SortMultiset<T>(le: (T, T) -> bool, s: seq<T>)
    ensures multiset(SortBy(le, s)) == multiset(s)
  {
    if s != [] {
      SortMultiset(le, s[1..]);
      InsertMultiset(le, s[0], SortBy(le, s[1..]));
      assert s == [s[0]] + s[1..];
    }
  }

  lemma SortMembers<T>(le: (T, T) -> bool, s: seq<T>)
    ensures |SortBy(le, s)| == |s|
    ensures forall x :: x in SortBy(le, s) <==> x in s
  {
    SortMultiset(le, s);
    assert |multiset(SortBy(le, s))| == |multiset(s)|;
    forall x ensures x in SortBy(le, s) <==> x in s {
      assert x in multiset(SortBy(le, s)) <==> x in multiset(s);
    }
  }

  lemma {:induction false} InsertSorted<T(!new)>(le: (T, T) -> bool, x: T, s: seq<T>)
    requires TotalPreorder(le) && Sorted(le, s)
    ensures Sorted(le, Insert(le, x, s))
  {
    if s != [] && !le(x, s[0]) {
      InsertSorted(le, x, s[1..]);
      InsertMultiset(le, x, s[1..]);
      var r := Insert(le, x, s[1..]);
      forall y | y in r ensures le(s[0], y) {
        assert y in multiset(r);
        assert y == x || y in s[1..];
      }
    }
  }

  lemma {:induction false} SortSorted<T(!new)>(le: (T, T) -> bool, s: seq<T>)
    requires TotalPreorder(le)
    ensures Sorted(le, SortBy(le, s))
  {
    if s != [] {
      SortSorted(le, s[1..]);
      InsertSorted(le, s[0], SortBy(le, s[1..]));
    }
  }

  lemma DistinctCount<T>(s: seq<T>)
    ensures Distinct(s) <==> forall x :: multiset(s)[x] <= 1
  {
    if s != [] {
      DistinctCount(s[1..]);
      assert s == [s[0]] + s[1..];
      if Distinct(s) {
        assert Distinct(s[1..]);
        assert forall k :: 0 <= k < |s[1..]| ==> s[1..][k] == s[k + 1];
        assert s[0] !in s[1..];
        assert s[0] !in multiset(s[1..]);
      } else {
        var i, j :| 0 <= i < j < |s| && s[i] == s[j];
        if i == 0 {
          assert s[1..][j - 1] == s[0];
          assert s[0] in multiset(s[1..]);
          assert multiset(s)[s[0]] >= 2;
        } else {
          assert s[1..][i - 1] == s[1..][j - 1];
          var x :| multiset(s[1..])[x] > 1;
          assert multiset(s)[x] > 1;
        }
      }
    }
  }

  lemma SortDistinct<T>(le: (T, T) -> bool, s: seq<T>)
    requires Distinct(s)
    ensures Distinct(SortBy(le, s))
  {
    SortMultiset(le, s);
    DistinctCount(s);
    DistinctCount(SortBy(le, s));
  }

  lemma TailMembers<T>(s: seq<T>, x: T)
    requires s != [] && Distinct(s)
    ensures x in s[1..] <==> x in s && x != s[0]
  {
    if x in s && x != s[0] {
      var k :| 0 <= k < |s| && s[k] == x;
      assert s[1..][k - 1] == x;
    }
    if x in s[1..] {
      var k :| 0 <= k < |s[1..]| && s[1..][k] == x;
      assert s[k + 1] == x;
    }
  }

  /** Two duplicate-free sequences over one set, both sorted by an
      antisymmetric order, are the same sequence. */
  lemma {:induction false} SortedUnique<T(!new)>(le: (T, T) -> bool, a: seq<T>, b: seq<T>)
    requires Antisymmetric(le)
    requires Sorted(le, a) && Sorted(le, b) && Distinct(a) && Distinct(b)
    requires forall x :: x in a <==> x in b
    ensures a == b
  {
    assert forall k :: 0 <= k < |a| ==> a[k] in b;
    assert forall k :: 0 <= k < |b| ==> b[k] in a;
    if a != [] && b != [] {
      assert a[0] in b && b[0] in a;
      assert le(a[0], b[0]) || a[0] == b[0];
      assert le(b[0], a[0]) || a[0] == b[0];
      assert a[0] == b[0];
      forall x ensures x in a[1..] <==> x in b[1..] {
        assert x in a[1..] <==> x in a && x != a[0] by { TailMembers(a, x); }
        assert x in b[1..] <==> x in b && x != b[0] by { TailMembers(b, x); }
      }
      SortedUnique(le, a[1..], b[1..]);
      assert a == [a[0]] + a[1..] && b == [b[0]] + b[1..];
    }
  }

  // ----- sets of strings in order

  lemma StrOrder()
    ensures TotalPreorder(StrLe) && Antisymmetric(StrLe)
  {
    forall a, b ensures StrLe(a, b) || StrLe(b, a) { StrLeTotal(a, b); }
    forall a, b, c | StrLe(a, b) && StrLe(b, c) ensures StrLe(a, c) { StrLeTransitive(a, b, c); }
    forall a, b | StrLe(a, b) && StrLe(b, a) ensures a == b { StrLeAntisymmetric(a, b); }
  }

  ghost predicate Least<T>(le: (T, T) -> bool, x: T, s: set<T>) {
    x in s && forall y :: y in s ==> le(x, y)
  }

  lemma {:induction false} LeastExists<T(!new)>(le: (T, T) -> bool, s: set<T>)
    requires TotalPreorder(le) && s != {}
    ensures exists x :: Least(le, x, s)
  {
    var x :| x in s;
    var rest := s - {x};
    if rest == {} {
      assert s == {x};
      assert Least(le, x, s);
    } else {
      LeastExists(le, rest);
      var m :| Least(le, m, rest);
      var k := if le(x, m) then x else m;
      forall y | y in s ensures le(k, y) {
        assert y == x || y in rest;
        assert le(x, m) || le(m, x);
      }
      assert Least(le, k, s);
    }
  }

  /** The elements of a set (the keys of a map) in ascending order. */
  ghost function SortSet<T(!new)>(le: (T, T) -> bool, s: set<T>): seq<T> {
    if x :| Least(le, x, s) then [x] + SortSet(le, s - {x}) else []
  }

  lemma {:induction false} SortSetSpec<T(!new)>(le: (T, T) -> bool, s: set<T>)
    requires TotalPreorder(le)
    ensures Sorted(le, SortSet(le, s)) && Distinct(SortSet(le, s))
    ensures forall x :: x in SortSet(le, s) <==> x in s
  {
    if s != {} {
      LeastExists(le, s);
      var x :| Least(le, x, s) && SortSet(le, s) == [x] + SortSet(le, s - {x});
      SortSetSpec(le, s - {x});
    }
  }

  /** Sorting the keys of a map, in whatever order they were listed. */
  lemma SortListing<T(!new)>(le: (T, T) -> bool, listing: seq<T>, s: set<T>)
    requires TotalPreorder(le) && Antisymmetric(le)
    requires Distinct(listing) && forall x :: x in listing <==> x in s
    ensures SortBy(le, listing) == SortSet(le, s)
  {
    SortSetSpec(le, s);
    SortSorted(le, listing);
    SortDistinct(le, listing);
    SortMembers(le, listing);
    SortedUnique(le, SortBy(le, listing), SortSet(le, s));
  }

  lemma LeastUnique(s: set<string>)
    ensures forall x, y :: Least(StrLe, x, s) && Least(StrLe, y, s) ==> x == y
  {
    forall x, y | Least(StrLe, x, s) && Least(StrLe, y, s) ensures x == y { StrLeAntisymmetric(x, y); }
  }

  /** The strings of a set in `sort.Strings` order, computed. */
  function SortedStrings(s: set<string>): seq<string> {
    if s == {} then []
    else
      StrOrder();
      LeastExists(StrLe, s);
      assert forall x, y :: Least(StrLe, x, s) && Least(StrLe, y, s) ==> x == y by { LeastUnique(s); }
      var x :| x in s && forall y :: y in s ==> StrLe(x, y);
      [x] + SortedStrings(s - {x})
  }

  lemma {:induction false} SortedStringsSpec(s: set<string>)
    ensures Sorted(StrLe, SortedStrings(s)) && Distinct(SortedStrings(s))
    ensures forall x :: x in SortedStrings(s) <==> x in s
  {
    if s != {} {
      StrOrder();
      LeastExists(StrLe, s);
      LeastUnique(s);
      var x :| Least(StrLe, x, s);
      SortedStringsSpec(s - {x});
      assert SortedStrings(s) == [x] + SortedStrings(s - {x});
    }
  }

  lemma WithoutOne<T>(s: seq<T>, k: nat)
    requires k < |s|
    ensures multiset(s[..k] + s[k + 1..]) == multiset(s) - multiset{s[k]}
  {
    assert s == s[..k] + [s[k]] + s[k + 1..];
  }

  // ----- joined identifiers

  /** `strings.Join(parts, "|")`. */
  function Join(parts: seq<string>): string {
    if parts == [] then ""
    else if |parts| == 1 then parts[0]
    else parts[0] + "|" + Join(parts[1..])
  }

  // The first separator of the joined text ends the first identifier.
  lemma SplitPoint(a: seq<string>)
    requires a != [] && forall x :: x in a ==> '|' !in x
    ensures |Join(a)| >= |a[0]| && Join(a)[..|a[0]|] == a[0]
    ensures forall j :: 0 <= j < |a[0]| ==> Join(a)[j] != '|'
    ensures |a| == 1 ==> Join(a) == a[0]
    ensures |a| > 1 ==> |Join(a)| > |a[0]| && Join(a)[|a[0]|] == '|'
    ensures |a| > 1 ==> Join(a)[|a[0]| + 1..] == Join(a[1..])
  {
    assert a[0] in a;
  }

  /** Identifiers without the separator are recovered from the joined text, so
      two non-empty identifier lists with one joined key are one list. */
  lemma {:induction false} JoinInjective(a: seq<string>, b: seq<string>)
    requires a != [] && b != []
    requires forall x :: x in a || x in b ==> '|' !in x
    requires Join(a) == Join(b)
    ensures a == b
  {
    SplitPoint(a);
    SplitPoint(b);
    if |a| > 1 && |b| > 1 {
      assert a[0] == Join(a)[..|a[0]|] == b[0];
      JoinInjective(a[1..], b[1..]);
      assert a == [a[0]] + a[1..] && b == [b[0]] + b[1..];
    }
  }

  /** A set as a sequence, in whatever order its elements come. */
  method Listing<T>(s: set<T>) returns (out: seq<T>)
    ensures Distinct(out) && forall x :: x in out <==> x in s
  {
    out := [];
    var rest := s;
    while rest != {}
      invariant rest <= s && Distinct(out)
      invariant forall x :: x in out <==> x in s && x !in rest
      decreases rest
    {
      var x :| x in rest;
      rest := rest - {x};
      out := out + [x];
    }
  }
}
