/** The symbols a repository index hands out (packages/repository/index/models.py). */
module IndexSymbols {
  import opened Names

  /** An indexed symbol. `symbolType` is upper case, `home` is its module. */
  datatype Symbol = Symbol(qualifiedName: Name, symbolType: string, home: Name, lineno: int)

  /** The last symbol of each name. */
  function Latest(all: seq<Symbol>): map<Name, Symbol> {
    if all == [] then map[] else Latest(all[..|all| - 1])[all[|all| - 1].qualifiedName := all[|all| - 1]]
  }

  /** Every later symbol has another name. */
  ghost predicate LastOfName(all: seq<Symbol>, s: Symbol) {
    exists i :: 0 <= i < |all| && all[i] == s && forall j :: i < j < |all| ==> all[j].qualifiedName != s.qualifiedName
  }

  lemma {:induction false} LatestIsLast(all: seq<Symbol>, name: Name)
    ensures name in Latest(all) <==> exists i :: 0 <= i < |all| && all[i].qualifiedName == name
    ensures name in Latest(all) ==> Latest(all)[name].qualifiedName == name && LastOfName(all, Latest(all)[name])
  {
    if all != [] {
      var front, last := all[..|all| - 1], all[|all| - 1];
      LatestIsLast(front, name);
      if last.qualifiedName == name {
        assert all[|all| - 1] == last;
      } else if name in Latest(front) {
        var s := Latest(front)[name];
        var i :| 0 <= i < |front| && front[i] == s &&
                 forall j :: i < j < |front| ==> front[j].qualifiedName != s.qualifiedName;
        assert all[i] == s && forall j :: i < j < |all| ==> all[j].qualifiedName != s.qualifiedName;
      }
    }
  }

  lemma LatestNames(all: seq<Symbol>)
    ensures forall name :: name in Latest(all) ==> Latest(all)[name].qualifiedName == name
  {
    forall name | name in Latest(all) ensures Latest(all)[name].qualifiedName == name { LatestIsLast(all, name); }
  }

  lemma SortedSetIsIn(names: set<Name>, i: nat)
    requires i < |SortedSet(names)|
    ensures SortedSet(names)[i] in names
  {
    assert SortedSet(names)[i] in SortedSet(names);
  }

  function ByName(seen: map<Name, Symbol>): (r: seq<Symbol>)
    ensures |r| == |SortedSet(seen.Keys)|
  {
    var names := SortedSet(seen.Keys);
    seq(|names|, i requires 0 <= i < |names| => SortedSetIsIn(seen.Keys, i); seen[names[i]])
  }

  /** The last symbol of each name, by name. */
  function Symbols(all: seq<Symbol>): seq<Symbol> {
    ByName(Latest(all))
  }

  /** One symbol a name, in ascending order. */
  lemma NamesAreDistinct(all: seq<Symbol>, i: nat, j: nat)
    requires i < j < |Symbols(all)|
    ensures Before(Symbols(all)[i].qualifiedName, Symbols(all)[j].qualifiedName)
  {
    var names := SortedSet(Latest(all).Keys);
    LatestNames(all);
    SortedSetIsIn(Latest(all).Keys, i);
    SortedSetIsIn(Latest(all).Keys, j);
  }

  lemma LastIsUnique(all: seq<Symbol>, a: Symbol, b: Symbol)
    requires LastOfName(all, a) && LastOfName(all, b) && a.qualifiedName == b.qualifiedName
    ensures a == b
  {
    var i :| 0 <= i < |all| && all[i] == a && forall j :: i < j < |all| ==> all[j].qualifiedName != a.qualifiedName;
    var k :| 0 <= k < |all| && all[k] == b && forall j :: k < j < |all| ==> all[j].qualifiedName != b.qualifiedName;
  }

  /** An index lists exactly the symbols that no later one of their name replaces. */
  lemma ListsExactlyTheLast(all: seq<Symbol>, s: Symbol)
    ensures s in Symbols(all) <==> LastOfName(all, s)
  {
    var names := SortedSet(Latest(all).Keys);
    LatestIsLast(all, s.qualifiedName);
    if s in Symbols(all) {
      var i :| 0 <= i < |names| && Symbols(all)[i] == s;
      SortedSetIsIn(Latest(all).Keys, i);
      LatestIsLast(all, names[i]);
    }
    if LastOfName(all, s) {
      LastIsUnique(all, s, Latest(all)[s.qualifiedName]);
      assert s.qualifiedName in names;
      var i :| 0 <= i < |names| && names[i] == s.qualifiedName;
      assert Symbols(all)[i] == s;
    }
  }

  /** The loop over all symbols, and the sort of what it keeps. */
  method ListSymbols(all: seq<Symbol>) returns (r: seq<Symbol>)
    ensures r == Symbols(all)
  {
    var seen: map<Name, Symbol> := map[];
    for i := 0 to |all|
      invariant seen == Latest(all[..i])
    {
      assert all[..i + 1][..i] == all[..i];
      seen := seen[all[i].qualifiedName := all[i]];
    }
    assert all[..|all|] == all;
    r := ByName(seen);
  }
}
