/** Names and their order.
    Registered names are Python strings: `sorted` and `list.sort` compare them
    code point by code point, a proper prefix first.
 */
module Names {

  type Name = string

  /** `a <= b` for two Python strings. */
  predicate AtMost(a: Name, b: Name) {
    if a == [] then true
    else if b == [] then false
    else if a[0] != b[0] then a[0] < b[0]
    else AtMost(a[1..], b[1..])
  }

  predicate Before(a: Name, b: Name) {
    AtMost(a, b) && a != b
  }

  lemma {:induction false} AtMostReflexive(a: Name)
    ensures AtMost(a, a)
  {
    if a != [] { AtMostReflexive(a[1..]); }
  }

  lemma {:induction false} AtMostTotal(a: Name, b: Name)
    ensures AtMost(a, b) || AtMost(b, a)
  {
    if a != [] && b != [] && a[0] == b[0] { AtMostTotal(a[1..], b[1..]); }
  }

  lemma {:induction false} AtMostAntisymmetric(a: Name, b: Name)
    requires AtMost(a, b) && AtMost(b, a)
    ensures a == b
  {
    if a != [] && b != [] {
      AtMostAntisymmetric(a[1..], b[1..]);
      assert a == [a[0]] + a[1..] && b == [b[0]] + b[1..];
    }
  }

  lemma {:induction false} AtMostTransitive(a: Name, b: Name, c: Name)
    requires AtMost(a, b) && AtMost(b, c)
    ensures AtMost(a, c)
  {
    if a != [] && b != [] && c != [] && a[0] == b[0] == c[0] {
      AtMostTransitive(a[1..], b[1..], c[1..]);
    }
  }

  ghost predicate Ascending(s: seq<Name>) {
    forall i, j :: 0 <= i < j < |s| ==> AtMost(s[i], s[j])
  }

  ghost predicate Distinct<T>(s: seq<T>) {
    forall i, j :: 0 <= i < j < |s| ==> s[i] != s[j]
  }

  function Insert(x: Name, s: seq<Name>): (r: seq<Name>)
    requires Ascending(s)
    ensures multiset(r) == multiset{x} + multiset(s)
    ensures Ascending(r)
  {
    if s == [] then [x]
    else if AtMost(x, s[0]) then
      assert forall j :: 0 <= j < |s| ==> AtMost(x, s[j]) by {
        forall j | 0 <= j < |s| ensures AtMost(x, s[j]) {
          if j > 0 { AtMostTransitive(x, s[0], s[j]); }
        }
      }
      [x] + s
    else
      var rest := Insert(x, s[1..]);
      assert s == [s[0]] + s[1..];
      assert forall j :: 0 <= j < |rest| ==> AtMost(s[0], rest[j]) by {
        AtMostTotal(x, s[0]);
        forall j | 0 <= j < |rest| ensures AtMost(s[0], rest[j]) {
          assert rest[j] in multiset(rest);
          if rest[j] != x {
            assert rest[j] in s[1..];
          }
        }
      }
      [s[0]] + rest
  }

  /** Python's `sorted` on a list of names. */
  function SortNames(s: seq<Name>): (r: seq<Name>)
    ensures Ascending(r)
    ensures multiset(r) == multiset(s)
  {
    if s == [] then []
    else
      assert s == [s[0]] + s[1..];
      Insert(s[0], SortNames(s[1..]))
  }

  lemma SameElements(r: seq<Name>, s: seq<Name>)
    requires multiset(r) == multiset(s)
    ensures |r| == |s|
    ensures forall x :: x in r <==> x in s
  {
    assert |multiset(r)| == |r| && |multiset(s)| == |s|;
    forall x ensures x in r <==> x in s {
      assert x in r <==> x in multiset(r);
      assert x in s <==> x in multiset(s);
    }
  }

  lemma DistinctCount<T>(s: seq<T>, x: T)
    requires Distinct(s)
    ensures multiset(s)[x] <= 1
  {
    if s != [] {
      assert s == [s[0]] + s[1..];
      DistinctCount(s[1..], x);
      assert s[0] !in s[1..];
    }
  }

  lemma CountDistinct<T>(s: seq<T>)
    requires forall x :: multiset(s)[x] <= 1
    ensures Distinct(s)
  {
    forall i, j | 0 <= i < j < |s| ensures s[i] != s[j] {
      assert s == s[..j] + s[j..];
      assert multiset(s) == multiset(s[..j]) + multiset(s[j..]);
      assert multiset(s)[s[i]] <= 1;
      assert s[i] in multiset(s[..j]) by { assert s[..j][i] == s[i]; }
      assert s[j] in multiset(s[j..]) by { assert s[j..][0] == s[j]; }
    }
  }

  lemma SortKeepsDistinct(s: seq<Name>)
    requires Distinct(s)
    ensures Distinct(SortNames(s))
  {
    forall x ensures multiset(SortNames(s))[x] <= 1 { DistinctCount(s, x); }
    CountDistinct(SortNames(s));
  }

  /** Sorting as a step of an algorithm: only what the sorted list holds is visible to it. */
  method Sorted(s: seq<Name>) returns (r: seq<Name>)
    ensures Ascending(r) && multiset(r) == multiset(s)
    ensures forall x :: x in r <==> x in s
    ensures Distinct(s) ==> Distinct(r)
  {
    r := SortNames(s);
    SameElements(r, s);
    if Distinct(s) { SortKeepsDistinct(s); }
  }

  predicate Least(k: Name, s: set<Name>) {
    k in s && forall x :: x in s ==> AtMost(k, x)
  }

  lemma LeastExists(s: set<Name>)
    requires s != {}
    ensures exists k :: Least(k, s)
  {
    var x :| x in s;
    AtMostReflexive(x);
    if s != {x} {
      LeastExists(s - {x});
      var k :| Least(k, s - {x});
      AtMostTotal(k, x);
      if AtMost(x, k) {
        forall y | y in s ensures AtMost(x, y) { if y != x { AtMostTransitive(x, k, y); } }
        assert Least(x, s);
      } else {
        assert Least(k, s);
      }
    } else {
      assert Least(x, s);
    }
  }

  lemma LeastIsUnique(j: Name, k: Name, s: set<Name>)
    requires Least(j, s) && Least(k, s)
    ensures j == k
  {
    AtMostAntisymmetric(j, k);
  }

  /** The keys of a mapping, as Python's `sorted` lists them. */
  function SortedSet(s: set<Name>): (r: seq<Name>)
    ensures forall x :: x in r <==> x in s
    ensures Ascending(r) && Distinct(r)
  {
    if s == {} then []
    else
      LeastExists(s);
      assert forall j, k :: Least(j, s) && Least(k, s) ==> j == k by {
        forall j, k | Least(j, s) && Least(k, s) ensures j == k { LeastIsUnique(j, k, s); }
      }
      var k :| k in s && Least(k, s);
      var rest := SortedSet(s - {k});
      assert Ascending([k] + rest) && Distinct([k] + rest) by {
        forall i | 0 <= i < |rest| ensures AtMost(k, rest[i]) && rest[i] != k { assert rest[i] in rest; }
      }
      [k] + rest
  }
}
