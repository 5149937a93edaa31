/** How much bonus a changed file needs to take a query's first place: the closed form of the sweep
    (scripts/quality_harness.py) against re-ranking the list (packages/context/ranking.py). */
module FlipWeight {
  import opened Names

  /** A ranked candidate. `symbolType` is upper case, `home` is its module. `relevant` says that a reason ties it
      to the query, `moduleMatch` that its module path does, `promoted` that it was given the bonus. */
  datatype Candidate = Candidate(qualifiedName: Name, symbolType: string, home: Name, score: int, relevant: bool,
                                 moduleMatch: bool, promoted: bool)

  function TypeRank(symbolType: string): int {
    if symbolType == "CLASS" then 3
    else if symbolType == "FUNCTION" then 2
    else if symbolType == "METHOD" then 1
    else 0
  }

  /** `_tie_break_key(a) < _tie_break_key(b)`. */
  predicate TieBefore(a: Candidate, b: Candidate) {
    || Before(a.qualifiedName, b.qualifiedName)
    || (a.qualifiedName == b.qualifiedName
        && (TypeRank(a.symbolType) > TypeRank(b.symbolType)
            || (TypeRank(a.symbolType) == TypeRank(b.symbolType) && Before(a.home, b.home))))
  }

  /** `a` sorts strictly before `b`. */
  predicate Outranks(a: Candidate, b: Candidate) {
    a.score > b.score || (a.score == b.score && TieBefore(a, b))
  }

  ghost predicate Ranked(s: seq<Candidate>) {
    forall i, j :: 0 <= i < j < |s| ==> !Outranks(s[j], s[i])
  }

  /** Classes come before functions, those before methods, and those before everything else. */
  ghost predicate TypesInOrder(a: string, b: string) {
    && (b == "CLASS" ==> a == "CLASS")
    && (b == "FUNCTION" ==> a in {"CLASS", "FUNCTION"})
    && (b == "METHOD" ==> a in {"CLASS", "FUNCTION", "METHOD"})
  }

  /** By score downwards, then by name, by type, and by module. */
  ghost predicate InOrder(a: Candidate, b: Candidate) {
    && a.score >= b.score
    && (a.score == b.score ==> AtMost(a.qualifiedName, b.qualifiedName))
    && (a.score == b.score && a.qualifiedName == b.qualifiedName ==> TypesInOrder(a.symbolType, b.symbolType))
    && (a.score == b.score && a.qualifiedName == b.qualifiedName && TypesInOrder(b.symbolType, a.symbolType) ==>
          AtMost(a.home, b.home))
  }

  lemma BeforeIsStrict(a: Name, b: Name)
    ensures !(Before(a, b) && Before(b, a))
    ensures a != b ==> Before(a, b) || Before(b, a)
  {
    AtMostTotal(a, b);
    if AtMost(a, b) && AtMost(b, a) { AtMostAntisymmetric(a, b); }
  }

  lemma OutranksIff(a: Candidate, b: Candidate)
    ensures !Outranks(b, a) <==> InOrder(a, b)
  {
    AtMostTotal(a.qualifiedName, b.qualifiedName);
    AtMostTotal(a.home, b.home);
    BeforeIsStrict(a.qualifiedName, b.qualifiedName);
    BeforeIsStrict(a.home, b.home);
    AtMostReflexive(a.qualifiedName);
    AtMostReflexive(a.home);
  }

  /** A list is ranked exactly when every two of its candidates are in the order of the documented sort key. */
  lemma RankedIff(s: seq<Candidate>)
    ensures Ranked(s) <==> forall i, j :: 0 <= i < j < |s| ==> InOrder(s[i], s[j])
  {
    forall i, j | 0 <= i < j < |s| ensures !Outranks(s[j], s[i]) <==> InOrder(s[i], s[j]) { OutranksIff(s[i], s[j]); }
  }

  function ChangedFileFlipWeight(leader: Candidate, competitor: Candidate): int {
    var gap := leader.score - competitor.score;
    if gap <= 0 then 1
    else if TieBefore(competitor, leader) then gap
    else gap + 1
  }

  // The ranking order.

  lemma BeforeWeak(a: Name, b: Name, c: Name)
    requires Before(a, b) && !Before(c, b)
    ensures Before(a, c)
  {
    AtMostTotal(b, c);
    AtMostReflexive(b);
    AtMostTransitive(a, b, c);
    if a == c { AtMostAntisymmetric(a, b); }
  }

  lemma TieWeak(a: Candidate, b: Candidate, c: Candidate)
    requires TieBefore(a, b) && !TieBefore(c, b)
    ensures TieBefore(a, c)
  {
    BeforeIsStrict(c.qualifiedName, b.qualifiedName);
    if Before(a.qualifiedName, b.qualifiedName) {
      BeforeWeak(a.qualifiedName, b.qualifiedName, c.qualifiedName);
    } else if c.qualifiedName == b.qualifiedName {
      BeforeIsStrict(c.home, b.home);
      if Before(a.home, b.home) && !Before(c.home, b.home) { BeforeWeak(a.home, b.home, c.home); }
    }
  }

  lemma OutranksWeak(a: Candidate, b: Candidate, c: Candidate)
    requires Outranks(a, b) && !Outranks(c, b)
    ensures Outranks(a, c)
  {
    if a.score == b.score == c.score { TieWeak(a, b, c); }
  }

  /** Candidates of different modules are never level. */
  lemma NeverLevel(a: Candidate, b: Candidate)
    ensures !(Outranks(a, b) && Outranks(b, a))
    ensures a.home != b.home ==> Outranks(a, b) || Outranks(b, a)
  {
    BeforeIsStrict(a.qualifiedName, b.qualifiedName);
    BeforeIsStrict(a.home, b.home);
  }

  // Re-ranking with the bonus.

  const MINIMUM_SCORE := 1

  /** The bonus goes to candidates of the changed module that survive without it and are tied to the query. */
  function Bumped(c: Candidate, changed: Name, weight: int): Candidate {
    if c.score >= MINIMUM_SCORE && c.relevant && c.home == changed
    then c.(score := c.score + weight, promoted := true)
    else c
  }

  function AllBumped(s: seq<Candidate>, changed: Name, weight: int): (r: seq<Candidate>)
    ensures |r| == |s| && forall i :: 0 <= i < |s| ==> r[i] == Bumped(s[i], changed, weight)
  {
    seq(|s|, i requires 0 <= i < |s| => Bumped(s[i], changed, weight))
  }

  /** Any sorted arrangement of the list with the bonus on one module. */
  ghost predicate Reranking(r: seq<Candidate>, s: seq<Candidate>, changed: Name, weight: int) {
    Ranked(r) && multiset(r) == multiset(AllBumped(s, changed, weight))
  }

  lemma InsertFirst(c: Candidate, s: seq<Candidate>)
    requires Ranked(s) && s != [] && !Outranks(s[0], c)
    ensures Ranked([c] + s)
  {
    forall j | 0 <= j < |s| ensures !Outranks(s[j], c) {
      if Outranks(s[j], c) && j > 0 { OutranksWeak(s[j], c, s[0]); }
    }
  }

  lemma InsertLater(c: Candidate, s: seq<Candidate>, rest: seq<Candidate>)
    requires Ranked(s) && s != [] && Outranks(s[0], c)
    requires Ranked(rest) && multiset(rest) == multiset(s[1..]) + multiset{c}
    ensures Ranked([s[0]] + rest)
  {
    NeverLevel(s[0], c);
    forall j | 0 <= j < |rest| ensures !Outranks(rest[j], s[0]) {
      assert rest[j] in multiset(rest);
      assert rest[j] == c || rest[j] in s[1..];
    }
  }

  function Insert(c: Candidate, s: seq<Candidate>): (r: seq<Candidate>)
    requires Ranked(s)
    ensures Ranked(r) && multiset(r) == multiset(s) + multiset{c}
  {
    if s == [] then [c]
    else if !Outranks(s[0], c) then
      InsertFirst(c, s);
      [c] + s
    else
      assert s == [s[0]] + s[1..];
      var rest := Insert(c, s[1..]);
      InsertLater(c, s, rest);
      [s[0]] + rest
  }

  /** The sort of the ranking engine. */
  function Rank(s: seq<Candidate>): (r: seq<Candidate>)
    ensures Ranked(r) && multiset(r) == multiset(s)
  {
    if s == [] then []
    else
      assert s == s[..|s| - 1] + [s[|s| - 1]];
      Insert(s[|s| - 1], Rank(s[..|s| - 1]))
  }

  /** The candidates tied to the query, in order. */
  function Relevant(s: seq<Candidate>): (r: seq<Candidate>)
    ensures forall c :: c in r <==> c in s && c.relevant
  {
    if s == [] then []
    else
      assert s == s[..|s| - 1] + [s[|s| - 1]];
      Relevant(s[..|s| - 1]) + (if s[|s| - 1].relevant then [s[|s| - 1]] else [])
  }

  lemma {:induction false} RelevantStaysRanked(s: seq<Candidate>)
    requires Ranked(s)
    ensures Ranked(Relevant(s))
  {
    if s != [] {
      var front, c := s[..|s| - 1], s[|s| - 1];
      RelevantStaysRanked(front);
      var r := Relevant(front);
      forall i | 0 <= i < |r| ensures !Outranks(c, r[i]) { assert r[i] in front; }
    }
  }

  /** Nothing relevant outranks the first relevant candidate. */
  lemma FirstIsBest(s: seq<Candidate>, c: Candidate)
    requires Ranked(s) && c in Relevant(s)
    ensures Relevant(s) != [] && !Outranks(c, Relevant(s)[0])
  {
    RelevantStaysRanked(s);
    NeverLevel(c, c);
  }

  lemma SameMembers(r: seq<Candidate>, s: seq<Candidate>, c: Candidate)
    requires multiset(r) == multiset(s)
    ensures c in r <==> c in s
  {
    assert c in r <==> c in multiset(r);
    assert c in s <==> c in multiset(s);
  }

  /** The bonus a competitor needs is the closed form. */
  lemma FlipIff(leader: Candidate, c: Candidate, weight: int)
    requires weight >= 1 && c.relevant && c.score >= MINIMUM_SCORE
    ensures Outranks(Bumped(c, c.home, weight), leader) <==> weight >= ChangedFileFlipWeight(leader, c)
  {
  }

  lemma BumpedMember(s: seq<Candidate>, changed: Name, weight: int, c: Candidate)
    requires c in s
    ensures Bumped(c, changed, weight) in AllBumped(s, changed, weight)
  {
    var i :| 0 <= i < |s| && s[i] == c;
    assert AllBumped(s, changed, weight)[i] == Bumped(c, changed, weight);
  }

  lemma BumpedOrigin(s: seq<Candidate>, changed: Name, weight: int, b: Candidate) returns (c: Candidate)
    requires b in AllBumped(s, changed, weight)
    ensures c in s && b == Bumped(c, changed, weight)
  {
    var i :| 0 <= i < |s| && AllBumped(s, changed, weight)[i] == b;
    c := s[i];
  }

  lemma RerankedMember(r: seq<Candidate>, s: seq<Candidate>, changed: Name, weight: int, c: Candidate)
    requires Reranking(r, s, changed, weight) && c in Relevant(s)
    ensures Bumped(c, changed, weight) in Relevant(r)
  {
    BumpedMember(s, changed, weight, c);
    SameMembers(r, AllBumped(s, changed, weight), Bumped(c, changed, weight));
  }

  lemma RerankedOrigin(r: seq<Candidate>, s: seq<Candidate>, changed: Name, weight: int, b: Candidate)
    returns (c: Candidate)
    requires Reranking(r, s, changed, weight) && b in Relevant(r)
    ensures c in Relevant(s) && b == Bumped(c, changed, weight)
  {
    SameMembers(r, AllBumped(s, changed, weight), b);
    c := BumpedOrigin(s, changed, weight, b);
  }

  ghost predicate CanTake(s: seq<Candidate>, leader: Candidate, changed: Name, weight: int, c: Candidate) {
    c in Relevant(s) && c.score >= MINIMUM_SCORE && c.home == changed && weight >= ChangedFileFlipWeight(leader, c)
  }

  ghost predicate CanFlip(s: seq<Candidate>, leader: Candidate, changed: Name, weight: int) {
    exists c :: CanTake(s, leader, changed, weight, c)
  }

  /** However the list is re-sorted, a changed module other than the leader's takes the first place
      exactly when the bonus reaches the closed form of one of its relevant candidates. */
  lemma TakesFirstPlaceIff(s: seq<Candidate>, r: seq<Candidate>, changed: Name, weight: int)
    requires Ranked(s) && Relevant(s) != [] && changed != Relevant(s)[0].home && weight >= 1
    requires Reranking(r, s, changed, weight)
    ensures Relevant(r) != []
    ensures Relevant(r)[0].home == changed <==> CanFlip(s, Relevant(s)[0], changed, weight)
  {
    var leader := Relevant(s)[0];
    RerankedMember(r, s, changed, weight, leader);
    var first := Relevant(r)[0];
    var origin := RerankedOrigin(r, s, changed, weight, first);
    if CanFlip(s, leader, changed, weight) {
      var c :| CanTake(s, leader, changed, weight, c);
      FlipIff(leader, c, weight);
      RerankedMember(r, s, changed, weight, c);
      FirstIsBest(r, Bumped(c, changed, weight));
      if first.home != changed {
        FirstIsBest(s, origin);
        OutranksWeak(Bumped(c, changed, weight), leader, origin);
        assert false;
      }
    } else if first.home == changed {
      FirstIsBest(r, leader);
      NeverLevel(first, leader);
      FirstIsBest(s, origin);
      if origin.score >= MINIMUM_SCORE {
        FlipIff(leader, origin, weight);
        assert CanTake(s, leader, changed, weight, origin);
      }
      assert false;
    }
  }

  // The sweep.

  /** One row of the sweep's report. */
  datatype Row = Row(
    query: string, leader: Name, leaderModule: Name, leaderScore: int, flipWeight: int,
    flipCandidate: Name, flipGap: int, ties: nat, relevant: nat)

  /** The relevant candidates of other modules than the leader's. */
  function Others(leader: Candidate, relevant: seq<Candidate>): (r: seq<Candidate>)
    ensures forall c :: c in r <==> c in relevant && c.home != leader.home
  {
    if relevant == [] then []
    else
      var last := relevant[|relevant| - 1];
      assert relevant == relevant[..|relevant| - 1] + [last];
      Others(leader, relevant[..|relevant| - 1]) + (if last.home != leader.home then [last] else [])
  }

  function LeastFlip(leader: Candidate, others: seq<Candidate>): (w: int)
    requires others != []
    ensures exists i :: 0 <= i < |others| && ChangedFileFlipWeight(leader, others[i]) == w
    ensures forall i :: 0 <= i < |others| ==> w <= ChangedFileFlipWeight(leader, others[i])
  {
    var last := ChangedFileFlipWeight(leader, others[|others| - 1]);
    if |others| == 1 then last
    else
      var least := LeastFlip(leader, others[..|others| - 1]);
      if last < least then last else least
  }

  lemma LesserIsLeast(leader: Candidate, others: seq<Candidate>, weight: int, least: Name, lesser: Name)
    requires Before(lesser, least)
    requires forall i :: 0 <= i < |others| && ChangedFileFlipWeight(leader, others[i]) == weight ==>
               AtMost(least, others[i].qualifiedName)
    ensures forall i :: 0 <= i < |others| && ChangedFileFlipWeight(leader, others[i]) == weight ==>
              AtMost(lesser, others[i].qualifiedName)
  {
    forall i | 0 <= i < |others| && ChangedFileFlipWeight(leader, others[i]) == weight
      ensures AtMost(lesser, others[i].qualifiedName)
    {
      AtMostTransitive(lesser, least, others[i].qualifiedName);
    }
  }

  /** The least name among the candidates that need exactly `weight`. */
  function LeastName(leader: Candidate, others: seq<Candidate>, weight: int): (n: Name)
    requires exists i :: 0 <= i < |others| && ChangedFileFlipWeight(leader, others[i]) == weight
    ensures exists i :: 0 <= i < |others| &&
              ChangedFileFlipWeight(leader, others[i]) == weight && others[i].qualifiedName == n
    ensures forall i :: 0 <= i < |others| && ChangedFileFlipWeight(leader, others[i]) == weight ==>
              AtMost(n, others[i].qualifiedName)
  {
    var front, last := others[..|others| - 1], others[|others| - 1];
    AtMostReflexive(last.qualifiedName);
    if forall i :: 0 <= i < |front| ==> ChangedFileFlipWeight(leader, front[i]) != weight then last.qualifiedName
    else
      var least := LeastName(leader, front, weight);
      if ChangedFileFlipWeight(leader, last) == weight && Before(last.qualifiedName, least) then
        LesserIsLeast(leader, front, weight, least, last.qualifiedName);
        last.qualifiedName
      else
        BeforeIsStrict(last.qualifiedName, least);
        AtMostReflexive(least);
        least
  }

  /** The first candidate with the given name. */
  function FirstNamed(others: seq<Candidate>, name: Name): (k: nat)
    requires exists i :: 0 <= i < |others| && others[i].qualifiedName == name
    ensures k < |others| && others[k].qualifiedName == name
    ensures forall i :: 0 <= i < k ==> others[i].qualifiedName != name
  {
    if others[0].qualifiedName == name then 0
    else
      assert exists i :: 0 <= i < |others[1..]| && others[1..][i].qualifiedName == name by {
        var i :| 0 <= i < |others| && others[i].qualifiedName == name;
        assert others[1..][i - 1] == others[i];
      }
      FirstNamed(others[1..], name) + 1
  }

  function Ties(leader: Candidate, others: seq<Candidate>): nat {
    if others == [] then 0
    else Ties(leader, others[..|others| - 1]) + (if others[|others| - 1].score == leader.score then 1 else 0)
  }

  /** The row of a query whose leader has competitors. */
  function RowFor(query: string, leader: Candidate, others: seq<Candidate>, relevant: nat): Row
    requires others != []
  {
    var best := LeastFlip(leader, others);
    var via := LeastName(leader, others, best);
    Row(query, leader.qualifiedName, leader.home, leader.score, best, via,
        leader.score - others[FirstNamed(others, via)].score, Ties(leader, others), relevant)
  }

  function Competitors(ranked: seq<Candidate>): seq<Candidate>
    requires Relevant(ranked) != []
  {
    Others(Relevant(ranked)[0], Relevant(ranked)[1..])
  }

  function RowsOf(query: string, ranked: seq<Candidate>): seq<Row> {
    if Relevant(ranked) == [] || Competitors(ranked) == [] then []
    else [RowFor(query, Relevant(ranked)[0], Competitors(ranked), |Relevant(ranked)|)]
  }

  /** The least weight the sweep reports for a ranking with competitors. */
  function SweepWeight(ranked: seq<Candidate>): (w: int)
    requires Relevant(ranked) != [] && Competitors(ranked) != []
    ensures w >= 1
  {
    LeastFlip(Relevant(ranked)[0], Competitors(ranked))
  }

  lemma RowHasSweepWeight(query: string, ranked: seq<Candidate>)
    ensures RowsOf(query, ranked) != [] <==> Relevant(ranked) != [] && Competitors(ranked) != []
    ensures RowsOf(query, ranked) != [] ==> RowsOf(query, ranked)[0].flipWeight == SweepWeight(ranked)
  {
  }

  function SweepRows(queries: seq<string>, rank: string -> seq<Candidate>): seq<Row> {
    if queries == [] then []
    else
      var last := queries[|queries| - 1];
      SweepRows(queries[..|queries| - 1], rank) + RowsOf(last, rank(last))
  }

  /** Going down the ranking, the flip weight never shrinks. */
  lemma FlipIsMonotone(leader: Candidate, a: Candidate, b: Candidate)
    requires !Outranks(b, a)
    ensures ChangedFileFlipWeight(leader, a) <= ChangedFileFlipWeight(leader, b)
  {
    if a.score == b.score && TieBefore(b, leader) && !TieBefore(a, leader) { TieWeak(b, leader, a); }
  }

  lemma {:induction false} OthersStayRanked(leader: Candidate, relevant: seq<Candidate>)
    requires Ranked(relevant)
    ensures Ranked(Others(leader, relevant))
  {
    if relevant != [] {
      var front, last := relevant[..|relevant| - 1], relevant[|relevant| - 1];
      OthersStayRanked(leader, front);
      var r := Others(leader, front);
      forall i | 0 <= i < |r| ensures !Outranks(last, r[i]) { assert r[i] in front; }
    }
  }

  lemma LeastIsFirst(leader: Candidate, others: seq<Candidate>)
    requires Ranked(others) && others != []
    ensures LeastFlip(leader, others) == ChangedFileFlipWeight(leader, others[0])
  {
    var i :| 0 <= i < |others| && ChangedFileFlipWeight(leader, others[i]) == LeastFlip(leader, others);
    if i > 0 { FlipIsMonotone(leader, others[0], others[i]); }
  }

  /** An earlier candidate needs the least weight too, if a later one does. */
  lemma EarlierIsLeast(leader: Candidate, others: seq<Candidate>, k: nat, j: nat)
    requires Ranked(others) && k <= j < |others|
    requires ChangedFileFlipWeight(leader, others[j]) == LeastFlip(leader, others)
    ensures ChangedFileFlipWeight(leader, others[k]) == LeastFlip(leader, others)
  {
    if k < j { FlipIsMonotone(leader, others[k], others[j]); }
  }

  /** The row's weight is what the best-ranked competitor needs, and its gap is that of a candidate
      needing exactly that weight. */
  lemma RowReadsTheFirstCompetitor(query: string, leader: Candidate, others: seq<Candidate>, relevant: nat)
    requires Ranked(others) && others != []
    ensures var row := RowFor(query, leader, others, relevant);
            && row.flipWeight == ChangedFileFlipWeight(leader, others[0])
            && exists k :: 0 <= k < |others| && others[k].qualifiedName == row.flipCandidate
                        && leader.score - others[k].score == row.flipGap
                        && ChangedFileFlipWeight(leader, others[k]) == row.flipWeight
  {
    LeastIsFirst(leader, others);
    var best := LeastFlip(leader, others);
    var via := LeastName(leader, others, best);
    var j :| 0 <= j < |others| && ChangedFileFlipWeight(leader, others[j]) == best && others[j].qualifiedName == via;
    EarlierIsLeast(leader, others, FirstNamed(others, via), j);
  }

  lemma CompetitorsAreRanked(ranked: seq<Candidate>)
    requires Ranked(ranked) && Relevant(ranked) != []
    ensures Ranked(Competitors(ranked))
  {
    RelevantStaysRanked(ranked);
    OthersStayRanked(Relevant(ranked)[0], Relevant(ranked)[1..]);
  }

  /** A ranking holds no candidate below the minimum score. */
  ghost predicate AllSurvive(s: seq<Candidate>) {
    forall i :: 0 <= i < |s| ==> s[i].score >= MINIMUM_SCORE
  }

  ghost predicate FlipsTo(ranked: seq<Candidate>, changed: Name, weight: int) {
    var r := Relevant(Rank(AllBumped(ranked, changed, weight)));
    r != [] && r[0].home == changed
  }

  /** Some other module takes the first place from the leader when it is the changed one. */
  ghost predicate SomeModuleFlips(ranked: seq<Candidate>, weight: int)
    requires Relevant(ranked) != []
  {
    exists changed: Name :: changed != Relevant(ranked)[0].home && FlipsTo(ranked, changed, weight)
  }

  lemma FlipsToIff(ranked: seq<Candidate>, changed: Name, weight: int)
    requires Ranked(ranked) && Relevant(ranked) != [] && changed != Relevant(ranked)[0].home && weight >= 1
    ensures FlipsTo(ranked, changed, weight) <==> CanFlip(ranked, Relevant(ranked)[0], changed, weight)
  {
    TakesFirstPlaceIff(ranked, Rank(AllBumped(ranked, changed, weight)), changed, weight);
  }

  lemma CompetitorsAre(ranked: seq<Candidate>, c: Candidate)
    requires Relevant(ranked) != []
    ensures c in Competitors(ranked) <==> c in Relevant(ranked) && c.home != Relevant(ranked)[0].home
  {
    var relevant := Relevant(ranked);
    assert relevant == [relevant[0]] + relevant[1..];
  }

  lemma LeastWeightFlips(ranked: seq<Candidate>, weight: int)
    requires Ranked(ranked) && AllSurvive(ranked) && Relevant(ranked) != [] && Competitors(ranked) != []
    requires weight >= 1 && weight >= LeastFlip(Relevant(ranked)[0], Competitors(ranked))
    ensures SomeModuleFlips(ranked, weight)
  {
    var c := Competitors(ranked)[0];
    CompetitorsAreRanked(ranked);
    LeastIsFirst(Relevant(ranked)[0], Competitors(ranked));
    CompetitorsAre(ranked, c);
    FlipsToIff(ranked, c.home, weight);
    assert CanTake(ranked, Relevant(ranked)[0], c.home, weight, c);
    assert FlipsTo(ranked, c.home, weight);
  }

  lemma FlipsNeedTheLeastWeight(ranked: seq<Candidate>, weight: int)
    requires Ranked(ranked) && Relevant(ranked) != [] && weight >= 1 && SomeModuleFlips(ranked, weight)
    ensures Competitors(ranked) != [] && weight >= LeastFlip(Relevant(ranked)[0], Competitors(ranked))
  {
    var leader, others := Relevant(ranked)[0], Competitors(ranked);
    var changed: Name :| changed != leader.home && FlipsTo(ranked, changed, weight);
    FlipsToIff(ranked, changed, weight);
    var c :| CanTake(ranked, leader, changed, weight, c);
    CompetitorsAre(ranked, c);
    var i :| 0 <= i < |others| && others[i] == c;
    assert LeastFlip(leader, others) <= ChangedFileFlipWeight(leader, others[i]);
  }

  /** The one-pass answer is the least weight found by re-ranking every module at every weight; and
      a query without a row cannot be flipped by any. */
  lemma SweepFindsTheLeastWeight(query: string, ranked: seq<Candidate>, weight: int)
    requires Ranked(ranked) && AllSurvive(ranked) && Relevant(ranked) != [] && weight >= 1
    ensures SomeModuleFlips(ranked, weight)
            <==> RowsOf(query, ranked) != [] && weight >= RowsOf(query, ranked)[0].flipWeight
  {
    if RowsOf(query, ranked) != [] && weight >= RowsOf(query, ranked)[0].flipWeight {
      LeastWeightFlips(ranked, weight);
    }
    if SomeModuleFlips(ranked, weight) { FlipsNeedTheLeastWeight(ranked, weight); }
  }
}
